/**
 The queue as a transition system: a broker shared by any number of workers, each
 holding in-flight copies of the messages it reserved. A worker may finish late,
 or crash. Every step carries the clock reading its caller took, which may be
 older than the clock at the moment the step executes. The remaining fields log
 what happened, for the theorems about whole runs.
 */
module Protocol {
  import opened Tasks
  import opened Sums
  import opened Broker

  datatype System = System(
    b: BrokerState,
    now: int,
    flight: seq<TaskMessage>,
    enqueued: seq<TaskMessage>,
    pushed: seq<TaskMessage>,
    popped: seq<TaskMessage>,
    reclaimed: seq<TaskMessage>,
    revived: seq<TaskMessage>,
    completions: nat,
    acks: nat,
    deadLetters: nat)

  function Init(now: int): System {
    System(EMPTY, now, [], [], [], [], [], [], 0, 0, 0)
  }

  /** What running a task's handler produced. */
  datatype Outcome = NoHandler | Success | Failure(error: string)

  datatype Decision = DoAck | DoRetry(reason: string) | DoFail(reason: string)

  /** Which completion a worker performs for its own copy of a task. */
  function Decide(copy: TaskMessage, outcome: Outcome): Decision {
    match outcome
    case NoHandler => DoFail("unknown task: " + copy.name)
    case Success => DoAck
    case Failure(error) => if ShouldRetry(copy) then DoRetry(error) else DoFail(error)
  }

  datatype Step =
    | Tick(elapsed: nat)
    | EnqueueStep(task: TaskMessage, t: int)
    | PromoteStep(member: TaskMessage, t: int)
    | ReserveStep(t: int)
    | ReclaimStep(id: string, t: int, timeout: int)
    | CompleteStep(slot: nat, outcome: Outcome, t: int)
    | CrashStep(slot: nat)
    | ReviveStep(id: string)

  predicate Enabled(s: System, e: Step) {
    match e
    case Tick(_) => true
    case EnqueueStep(_, t) => t <= s.now
    case PromoteStep(member, t) => t <= s.now && NextDue(s.b, member, t)
    case ReserveStep(t) => t <= s.now
    case ReclaimStep(_, t, _) => t <= s.now
    case CompleteStep(slot, _, t) => slot < |s.flight| && t <= s.now
    case CrashStep(slot) => slot < |s.flight|
    case ReviveStep(_) => true
  }

  function CompleteBroker(b: BrokerState, copy: TaskMessage, d: Decision, t: int): BrokerState {
    match d
    case DoAck => Ack(b, copy.id)
    case DoRetry(reason) => Retry(b, copy, reason, t)
    case DoFail(reason) => Fail(b, copy.id, reason)
  }

  function NextEnqueue(s: System, m: TaskMessage, t: int): System {
    s.(b := Enqueue(s.b, m, t),
       enqueued := s.enqueued + [m],
       pushed := if EnqueuesDelayed(m, t) then s.pushed else s.pushed + [EnqueuedCopy(m, t)])
  }

  function NextPromote(s: System, m: TaskMessage): System {
    s.(b := Promote(s.b, m), pushed := s.pushed + [PromotedCopy(m)])
  }

  /** The caller receives its copy only if the stored message parses. */
  function NextReserve(s: System, t: int): System {
    if s.b.pending == [] then s
    else
      var m := s.b.pending[0];
      s.(b := Reserve(s.b, t),
         popped := s.popped + [m],
         flight := if Parseable(m) then s.flight + [ReservedCopy(m, t)] else s.flight)
  }

  function NextReclaim(s: System, id: string, t: int, timeout: int): System {
    if !Reclaims(s.b, id, t, timeout) then s
    else
      var copy := ReclaimedCopy(s.b.running[id]);
      s.(b := Reclaim(s.b, id, t, timeout), pushed := s.pushed + [copy], reclaimed := s.reclaimed + [copy])
  }

  function NextComplete(s: System, slot: nat, outcome: Outcome, t: int): System
    requires slot < |s.flight|
  {
    var copy := s.flight[slot];
    var d := Decide(copy, outcome);
    s.(b := CompleteBroker(s.b, copy, d, t),
       flight := Without(s.flight, slot),
       completions := s.completions + 1,
       acks := if d.DoAck? then s.acks + 1 else s.acks,
       deadLetters := if d.DoFail? then s.deadLetters + 1 else s.deadLetters)
  }

  function NextRevive(s: System, id: string): System {
    if !Revives(s.b, id) then s
    else
      var copy := RevivedCopy(s.b.dead[FirstWithId(s.b.dead, id)]);
      s.(b := Revive(s.b, id), pushed := s.pushed + [copy], revived := s.revived + [copy])
  }

  function Next(s: System, e: Step): System
    requires Enabled(s, e)
  {
    match e
    case Tick(elapsed) => s.(now := s.now + elapsed)
    case EnqueueStep(m, t) => NextEnqueue(s, m, t)
    case PromoteStep(m, _) => NextPromote(s, m)
    case ReserveStep(t) => NextReserve(s, t)
    case ReclaimStep(id, t, timeout) => NextReclaim(s, id, t, timeout)
    case CompleteStep(slot, outcome, t) => NextComplete(s, slot, outcome, t)
    case CrashStep(slot) => s.(flight := Without(s.flight, slot))
    case ReviveStep(id) => NextRevive(s, id)
  }

  /** Any interleaving of steps, each enabled where it is taken. */
  predicate Run(s: System, steps: seq<Step>)
    decreases steps
  {
    steps == [] || (Enabled(s, steps[0]) && Run(Next(s, steps[0]), steps[1..]))
  }

  function Exec(s: System, steps: seq<Step>): System
    requires Run(s, steps)
    decreases steps
  {
    if steps == [] then s else Exec(Next(s, steps[0]), steps[1..])
  }

  /** A run can be cut anywhere. */
  lemma {:induction false} RunSplit(s: System, a: seq<Step>, b: seq<Step>)
    requires Run(s, a + b)
    ensures Run(s, a) && Run(Exec(s, a), b) && Exec(s, a + b) == Exec(Exec(s, a), b)
    decreases a
  {
    if a == [] {
      assert a + b == b;
    } else {
      assert (a + b)[0] == a[0] && (a + b)[1..] == a[1..] + b;
      RunSplit(Next(s, a[0]), a[1..], b);
    }
  }

  lemma {:induction false} RunJoin(s: System, a: seq<Step>, b: seq<Step>)
    requires Run(s, a) && Run(Exec(s, a), b)
    ensures Run(s, a + b) && Exec(s, a + b) == Exec(Exec(s, a), b)
    decreases a
  {
    if a == [] {
      assert a + b == b;
    } else {
      assert (a + b)[0] == a[0] && (a + b)[1..] == a[1..] + b;
      RunJoin(Next(s, a[0]), a[1..], b);
    }
  }

  lemma RunOne(s: System, e: Step)
    ensures Run(s, [e]) <==> Enabled(s, e)
    ensures Enabled(s, e) ==> Exec(s, [e]) == Next(s, e)
  {
    assert [e][1..] == [];
    assert Enabled(s, e) ==> Run(Next(s, e), []);
  }

  lemma {:induction false} ClockMonotone(s: System, steps: seq<Step>)
    requires Run(s, steps)
    ensures s.now <= Exec(s, steps).now
    decreases steps
  {
    if steps == [] {
    } else {
      ClockMonotone(Next(s, steps[0]), steps[1..]);
    }
  }

  // ------------------------------------------------------------- queue order

  ghost predicate InOrder(s: System) {
    s.pushed == s.popped + s.b.pending
  }

  /**
   First in, first out over every run: the messages pushed onto pending, in
   order, are those reserved so far followed by those still waiting.
   */
  lemma {:induction false} PendingIsFifo(s: System, steps: seq<Step>)
    requires InOrder(s) && Run(s, steps)
    ensures InOrder(Exec(s, steps))
    decreases steps
  {
    if steps == [] {
    } else {
      var s' := Next(s, steps[0]);
      if steps[0].ReserveStep? && s.b.pending != [] {
        assert s.b.pending == [s.b.pending[0]] + s.b.pending[1..];
      }
      assert InOrder(s');
      PendingIsFifo(s', steps[1..]);
    }
  }
}
