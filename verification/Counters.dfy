/**
 The broker's counters as callers keep them: the script runs first, and its caller
 records the counter in the metrics hash some time later, while others act; or it
 crashes in between, and the increment is lost.
 */
module Counters {
  import opened Sums
  import opened Tasks
  import opened Protocol
  import opened Leases
  import M = Metrics

  const ENQUEUED := "tasks_enqueued_total"
  const COMPLETED := "tasks_completed_total"
  const RETRIED := "tasks_retried_total"
  const DEAD_LETTERED := "tasks_dead_lettered_total"

  const COUNTERS := {ENQUEUED, COMPLETED, RETRIED, DEAD_LETTERED}

  /** `owed` are increments that callers will still record, `lost` those of crashed callers. */
  datatype Metered = Metered(s: System, hash: M.Hash, owed: seq<string>, lost: seq<string>)

  datatype MeteredStep =
    | Act(step: Step)
    | Record(i: nat)
    | Lose(i: nat)

  function Start(now: int): Metered {
    Metered(Init(now), map[], [], [])
  }

  /** The counter that the caller of a step has to record after it. */
  function Owes(s: System, e: Step): seq<string>
    requires Enabled(s, e)
  {
    match e
    case EnqueueStep(_, _) => [ENQUEUED]
    case CompleteStep(slot, outcome, _) =>
      (match Decide(s.flight[slot], outcome)
       case DoAck => [COMPLETED]
       case DoRetry(_) => [RETRIED]
       case DoFail(_) => [DEAD_LETTERED])
    case _ => []
  }

  predicate MeteredEnabled(c: Metered, e: MeteredStep) {
    match e
    case Act(step) => LeaseHeld(c.s, step)
    case Record(i) => i < |c.owed|
    case Lose(i) => i < |c.owed|
  }

  function MeteredNext(c: Metered, e: MeteredStep): Metered
    requires MeteredEnabled(c, e)
  {
    match e
    case Act(step) => c.(s := Next(c.s, step), owed := c.owed + Owes(c.s, step))
    case Record(i) => c.(hash := M.Store(c.hash, M.CounterRecord(c.owed[i], 1)), owed := Without(c.owed, i))
    case Lose(i) => c.(lost := c.lost + [c.owed[i]], owed := Without(c.owed, i))
  }

  predicate MeteredRun(c: Metered, steps: seq<MeteredStep>)
    decreases steps
  {
    steps == [] || (MeteredEnabled(c, steps[0]) && MeteredRun(MeteredNext(c, steps[0]), steps[1..]))
  }

  function MeteredExec(c: Metered, steps: seq<MeteredStep>): Metered
    requires MeteredRun(c, steps)
    decreases steps
  {
    if steps == [] then c else MeteredExec(MeteredNext(c, steps[0]), steps[1..])
  }

  // --------------------------------------------------------------- invariant

  /** The value of a counter in the metrics that the hash stands for. */
  function Counter(c: Metered, name: string): int {
    M.Lookup(M.Decode(c.hash).counters, name)
  }

  ghost function NameWeight(name: string): string -> int {
    (x: string) => if x == name then 1 else 0
  }

  /** Increments that the hash does not show. */
  ghost function Missing(c: Metered, name: string): int {
    Sum(c.owed, NameWeight(name)) + Sum(c.lost, NameWeight(name))
  }

  /** How often the steps behind a counter have been taken. */
  function Total(s: System, name: string): int {
    if name == ENQUEUED then |s.enqueued|
    else if name == COMPLETED then s.acks
    else if name == DEAD_LETTERED then s.deadLetters
    else s.completions - s.acks - s.deadLetters
  }

  ghost predicate Metering(c: Metered, name: string) {
    Counter(c, name) + Missing(c, name) == Total(c.s, name)
  }

  lemma RecordCounts(h: M.Hash, name: string, other: string)
    ensures M.Lookup(M.Decode(M.Store(h, M.CounterRecord(name, 1))).counters, other)
            == M.Lookup(M.Decode(h).counters, other) + if name == other then 1 else 0
  {
    M.StoreCounter(h, name, 1);
    hide M.Decode, M.Store;
  }

  lemma NamesDiffer()
    ensures ENQUEUED != COMPLETED && ENQUEUED != RETRIED && ENQUEUED != DEAD_LETTERED
    ensures COMPLETED != RETRIED && COMPLETED != DEAD_LETTERED && RETRIED != DEAD_LETTERED
  {
    assert ENQUEUED[6] == 'e' && COMPLETED[6] == 'c' && RETRIED[6] == 'r' && DEAD_LETTERED[6] == 'd';
  }

  lemma OneName(owed: string, name: string)
    ensures Sum([owed], NameWeight(name)) == if owed == name then 1 else 0
  {
    SumSingle(owed, NameWeight(name));
  }

  lemma NoNames(name: string)
    ensures Sum([], NameWeight(name)) == 0
  {
  }

  lemma CompletionCounts(s: System, slot: nat, outcome: Outcome, t: int, name: string)
    requires slot < |s.flight| && t <= s.now && name in COUNTERS
    ensures Total(NextComplete(s, slot, outcome, t), name)
            == Total(s, name) + Sum(Owes(s, CompleteStep(slot, outcome, t)), NameWeight(name))
  {
    hide Sum, CompleteBroker, ShouldRetry;
    NamesDiffer();
    match Decide(s.flight[slot], outcome) {
      case DoAck => OneName(COMPLETED, name);
      case DoRetry(_) => OneName(RETRIED, name);
      case DoFail(_) => OneName(DEAD_LETTERED, name);
    }
  }

  lemma ActCounts(s: System, e: Step, name: string)
    requires Enabled(s, e) && name in COUNTERS
    ensures Total(Next(s, e), name) == Total(s, name) + Sum(Owes(s, e), NameWeight(name))
  {
    hide NextComplete, COUNTERS, Decide;
    if e.CompleteStep? {
      CompletionCounts(s, e.slot, e.outcome, e.t, name);
    } else {
      hide Sum;
      NamesDiffer();
      OneName(ENQUEUED, name);
      NoNames(name);
    }
  }

  lemma MeteringStep(c: Metered, e: MeteredStep, name: string)
    requires MeteredEnabled(c, e) && Metering(c, name)
    requires name in COUNTERS
    ensures Metering(MeteredNext(c, e), name)
  {
    hide Next, Owes, Total, Sum, M.Decode, M.Store;
    var w := NameWeight(name);
    match e {
      case Act(step) =>
        ActCounts(c.s, step, name);
        SumConcat(c.owed, Owes(c.s, step), w);
      case Record(i) =>
        RecordCounts(c.hash, c.owed[i], name);
        SumWithout(c.owed, i, w);
      case Lose(i) =>
        SumWithout(c.owed, i, w);
        SumAppend(c.lost, c.owed[i], w);
    }
  }

  ghost predicate MeteredInv(c: Metered) {
    && LeaseInv(c.s) && Balanced(c.s)
    && Metering(c, ENQUEUED) && Metering(c, COMPLETED) && Metering(c, DEAD_LETTERED) && Metering(c, RETRIED)
  }

  lemma {:induction false} MeteredRuns(c: Metered, steps: seq<MeteredStep>)
    requires MeteredInv(c) && MeteredRun(c, steps)
    ensures MeteredInv(MeteredExec(c, steps))
    decreases steps
  {
    if steps == [] {
    } else {
      hide Metering, Balanced, LeaseInv, Next;
      MeteringStep(c, steps[0], ENQUEUED);
      MeteringStep(c, steps[0], COMPLETED);
      MeteringStep(c, steps[0], DEAD_LETTERED);
      MeteringStep(c, steps[0], RETRIED);
      if steps[0].Act? {
        LeaseStep(c.s, steps[0].step);
        BalancedStep(c.s, steps[0].step);
      }
      MeteredRuns(MeteredNext(c, steps[0]), steps[1..]);
    }
  }

  lemma StartMetered(now: int)
    ensures MeteredInv(Start(now))
  {
    InitLease(now);
    M.NoRecords();
    hide M.Decode;
  }

  // ----------------------------------------------------------------- theorem

  /**
   Conservation against the metrics hash, over every lease-held run in which
   callers record their counters whenever they get to it, or never: the two sides
   differ by exactly the increments that are owed or lost. At rest, with nothing
   owed and nothing lost, tasks_enqueued_total = pending + delayed + running + dead
   + tasks_completed_total, and tasks_dead_lettered_total = dead + successful
   dead-letter retries.
   */
  lemma CountersConserve(now: int, steps: seq<MeteredStep>)
    requires MeteredRun(Start(now), steps)
    ensures var c := MeteredExec(Start(now), steps);
            && Counter(c, ENQUEUED) + Missing(c, ENQUEUED)
               == Size(c.s.b) + Counter(c, COMPLETED) + Missing(c, COMPLETED)
            && Counter(c, DEAD_LETTERED) + Missing(c, DEAD_LETTERED) == |c.s.b.dead| + |c.s.revived|
            && Counter(c, RETRIED) + Missing(c, RETRIED) == c.s.completions - c.s.acks - c.s.deadLetters
    ensures var c := MeteredExec(Start(now), steps);
            c.owed == [] && c.lost == [] ==>
              && Counter(c, ENQUEUED) == Size(c.s.b) + Counter(c, COMPLETED)
              && Counter(c, DEAD_LETTERED) == |c.s.b.dead| + |c.s.revived|
  {
    StartMetered(now);
    MeteredRuns(Start(now), steps);
    NamesDiffer();
  }

  /** An input that shows the lag: right after an enqueue the counter is still zero. */
  lemma CounterLags(now: int, m: TaskMessage)
    ensures var steps := [Act(EnqueueStep(m, now))];
            && MeteredRun(Start(now), steps)
            && var c := MeteredExec(Start(now), steps);
               Counter(c, ENQUEUED) == 0 && Counter(c, COMPLETED) == 0 && Size(c.s.b) == 1
  {
    var e := Act(EnqueueStep(m, now));
    assert [e][1..] == [];
    var c := MeteredNext(Start(now), e);
    assert MeteredRun(c, []) && MeteredExec(c, []) == c;
    M.DecodedCounter(map[], ENQUEUED);
    M.DecodedCounter(map[], COMPLETED);
    hide M.Decode;
  }
}
