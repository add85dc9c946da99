/**
 A worker's Run loop over its thread pool: check the running flag, check for room,
 reserve a task, submit it; and when stopped, shut the pool down. Run may be called
 again after it has returned. The pool takes its own steps in between, and Stop may
 be called at any time.
 */
module WorkerLoop {
  import opened ThreadPool

  /** Where the thread that calls Run is. */
  datatype Place =
    | NotStarted
    | Top
    | Checked
    | Admitted
    | Holding(job: Job)
    | Closing(call: nat)
    | BackFromRun

  /**
   `stopped` says whether the pool's stop flag was set when the current Run began,
   `before` is what the pool had accepted then, and `reserved` logs the tasks that
   this Run has reserved.
   */
  datatype Loop = Loop(
    pool: Pool,
    place: Place,
    running: bool,
    stopped: bool,
    before: seq<Job>,
    reserved: seq<Job>)

  function StartLoop(n: nat): Loop {
    Loop(Start(n), NotStarted, false, false, [], [])
  }

  datatype LoopStep =
    | BeginRun
    | CheckFlag
    | Admit
    | NoRoom
    | NothingReserved
    | ReserveTask(job: Job)
    | SubmitHeld
    | ReturnFromRun
    | StopCall
    | PoolAction(step: Step)

  predicate LoopEnabled(w: Loop, e: LoopStep) {
    match e
    case BeginRun => w.place == NotStarted || w.place == BackFromRun
    case CheckFlag => w.place == Top
    case Admit => w.place == Checked && |w.pool.jobs| + w.pool.active < |w.pool.threads|
    case NoRoom => w.place == Checked && |w.pool.jobs| + w.pool.active >= |w.pool.threads|
    case NothingReserved => w.place == Admitted
    case ReserveTask(_) => w.place == Admitted
    case SubmitHeld => w.place.Holding?
    case ReturnFromRun =>
      w.place.Closing? && w.place.call < |w.pool.calls| && w.pool.calls[w.place.call] != InProgress
    case StopCall => true
    case PoolAction(step) => !step.Submit? && !step.BeginShutdown? && Enabled(w.pool, step)
  }

  function LoopNext(w: Loop, e: LoopStep): Loop
    requires LoopEnabled(w, e)
  {
    match e
    case BeginRun =>
      w.(place := Top, running := true, stopped := w.pool.stop, before := w.pool.accepted, reserved := [])
    case CheckFlag =>
      if w.running then w.(place := Checked)
      else w.(place := Closing(|w.pool.calls|), pool := Next(w.pool, BeginShutdown))
    case Admit => w.(place := Admitted)
    case NoRoom => w.(place := Top)
    case NothingReserved => w.(place := Top)
    case ReserveTask(job) => w.(place := Holding(job), reserved := w.reserved + [job])
    case SubmitHeld => w.(place := Top, pool := Next(w.pool, Submit(w.place.job)))
    case ReturnFromRun => w.(place := BackFromRun)
    case StopCall => w.(running := false)
    case PoolAction(step) => w.(pool := Next(w.pool, step))
  }

  predicate LoopRun(w: Loop, steps: seq<LoopStep>)
    decreases steps
  {
    steps == [] || (LoopEnabled(w, steps[0]) && LoopRun(LoopNext(w, steps[0]), steps[1..]))
  }

  function LoopExec(w: Loop, steps: seq<LoopStep>): Loop
    requires LoopRun(w, steps)
    decreases steps
  {
    if steps == [] then w else LoopExec(LoopNext(w, steps[0]), steps[1..])
  }

  // --------------------------------------------------------------- admission

  /** Room is kept for the task being reserved. */
  predicate Bounded(w: Loop) {
    |w.pool.jobs| + w.pool.active + (if w.place.Admitted? || w.place.Holding? then 1 else 0) <= |w.pool.threads|
  }

  lemma OnlySubmitAddsWork(p: Pool, e: Step)
    requires Enabled(p, e)
    ensures |Next(p, e).threads| == |p.threads|
    ensures |Next(p, e).jobs| + Next(p, e).active <= |p.jobs| + p.active + if e.Submit? then 1 else 0
  {
    hide Notified, Returned;
  }

  lemma BoundedStep(w: Loop, e: LoopStep)
    requires Bounded(w) && LoopEnabled(w, e)
    ensures Bounded(LoopNext(w, e)) && |LoopNext(w, e).pool.threads| == |w.pool.threads|
  {
    hide Next;
    match e {
      case PoolAction(step) => OnlySubmitAddsWork(w.pool, step);
      case CheckFlag => OnlySubmitAddsWork(w.pool, BeginShutdown);
      case SubmitHeld => OnlySubmitAddsWork(w.pool, Submit(w.place.job));
      case _ =>
    }
  }

  /** With the Run loop as only submitter, queued plus running work never exceeds the thread count. */
  lemma {:induction false} InFlightIsBounded(w: Loop, steps: seq<LoopStep>)
    requires Bounded(w) && LoopRun(w, steps)
    ensures Bounded(LoopExec(w, steps))
    ensures |LoopExec(w, steps).pool.jobs| + LoopExec(w, steps).pool.active <= |w.pool.threads|
    decreases steps
  {
    if steps == [] {
    } else {
      BoundedStep(w, steps[0]);
      hide LoopNext;
      InFlightIsBounded(LoopNext(w, steps[0]), steps[1..]);
    }
  }

  lemma {:induction false} ThreadsStay(w: Loop, steps: seq<LoopStep>)
    requires LoopRun(w, steps) && Bounded(w)
    ensures |LoopExec(w, steps).pool.threads| == |w.pool.threads|
    decreases steps
  {
    if steps == [] {
    } else {
      BoundedStep(w, steps[0]);
      hide LoopNext;
      ThreadsStay(LoopNext(w, steps[0]), steps[1..]);
    }
  }

  /** A loop that has checked its flag can go on, and reserves next exactly if queued plus active work is below n. */
  lemma AdmitsIffRoom(n: nat, steps: seq<LoopStep>)
    requires LoopRun(StartLoop(n), steps) && LoopExec(StartLoop(n), steps).place == Checked
    ensures var w := LoopExec(StartLoop(n), steps);
            && (LoopEnabled(w, Admit) <==> |w.pool.jobs| + w.pool.active < n)
            && (LoopEnabled(w, NoRoom) <==> |w.pool.jobs| + w.pool.active >= n)
  {
    ThreadsStay(StartLoop(n), steps);
  }

  // ------------------------------------------------------------ return of Run

  /** The reserved tasks that have been submitted. */
  function Submitted(w: Loop): seq<Job> {
    if w.place.Holding? && w.reserved != [] then w.reserved[..|w.reserved| - 1] else w.reserved
  }

  /** What the pool has accepted of this Run: all it submitted, or nothing if stop was set before. */
  predicate AcceptedSoFar(w: Loop) {
    && w.pool.accepted == w.before + (if w.stopped then [] else Submitted(w))
    && (w.place.Holding? ==> w.reserved != [] && w.reserved[|w.reserved| - 1] == w.place.job)
  }

  /** How far the pool's shutdown has come. */
  predicate ShutdownSoFar(w: Loop) {
    && (w.stopped ==> w.pool.phase == Joined)
    && match w.place
       case NotStarted => !w.pool.stop && !w.stopped && w.reserved == []
       case Closing(k) => w.pool.stop && k < |w.pool.calls| && (k == 0 <==> !w.stopped)
       case BackFromRun => w.pool.phase == Joined
       case _ => w.pool.stop == w.stopped
  }

  ghost predicate LoopInv(w: Loop) {
    PoolInv(w.pool) && AcceptedSoFar(w) && ShutdownSoFar(w)
  }

  /** Steps of the pool accept nothing, and undo no shutdown. */
  lemma PoolActionKeeps(p: Pool, e: Step)
    requires Enabled(p, e) && !e.Submit? && !e.BeginShutdown?
    ensures var p' := Next(p, e);
            && p'.accepted == p.accepted && p'.stop == p.stop && |p'.calls| == |p.calls|
            && (p.phase == Joined ==> p'.phase == Joined)
  {
  }

  lemma ShutdownKeeps(p: Pool)
    requires FirstCallWaits(p) && OrderlyStop(p)
    ensures var p' := Next(p, BeginShutdown);
            && p'.accepted == p.accepted && p'.stop && |p'.calls| == |p.calls| + 1
            && (p.phase == Joined ==> p'.phase == Joined) && (|p.calls| == 0 <==> !p.stop)
  {
  }

  lemma CanShutDown(p: Pool)
    requires PoolInv(p)
    ensures Enabled(p, BeginShutdown) && PoolInv(Next(p, BeginShutdown))
  {
    hide PoolInv;
    PoolStep(p, BeginShutdown);
  }

  lemma CanSubmit(p: Pool, job: Job)
    requires PoolInv(p)
    ensures Enabled(p, Submit(job)) && PoolInv(Next(p, Submit(job)))
  {
    hide PoolInv;
    PoolStep(p, Submit(job));
  }

  lemma PoolPart(w: Loop, e: LoopStep)
    requires PoolInv(w.pool) && LoopEnabled(w, e)
    ensures PoolInv(LoopNext(w, e).pool)
  {
    hide PoolInv, Next, Enabled;
    match e {
      case PoolAction(step) => PoolStep(w.pool, step);
      case CheckFlag => CanShutDown(w.pool);
      case SubmitHeld => CanSubmit(w.pool, w.place.job);
      case _ =>
    }
  }

  lemma AcceptedPart(w: Loop, e: LoopStep)
    requires AcceptedSoFar(w) && ShutdownSoFar(w) && LoopEnabled(w, e)
    ensures AcceptedSoFar(LoopNext(w, e))
  {
    match e {
      case PoolAction(step) =>
        hide Next, Enabled;
        PoolActionKeeps(w.pool, step);
      case SubmitHeld => assert w.reserved == Submitted(w) + [w.place.job];
      case _ =>
    }
  }

  lemma ShutdownPart(w: Loop, e: LoopStep)
    requires OrderlyStop(w.pool) && FirstCallWaits(w.pool) && ShutdownSoFar(w) && LoopEnabled(w, e)
    ensures ShutdownSoFar(LoopNext(w, e))
  {
    match e {
      case PoolAction(step) =>
        hide Next, Enabled;
        PoolActionKeeps(w.pool, step);
      case CheckFlag =>
        hide Next;
        ShutdownKeeps(w.pool);
      case _ =>
    }
  }

  lemma LoopInvStep(w: Loop, e: LoopStep)
    requires LoopInv(w) && LoopEnabled(w, e)
    ensures LoopInv(LoopNext(w, e))
  {
    hide LoopNext, LoopEnabled, AcceptedSoFar, ShutdownSoFar, NoLostWakeup, NoLostIdle, ExactlyOnce, IdleReturns,
      OrderlyStop, FirstCallWaits;
    PoolPart(w, e);
    AcceptedPart(w, e);
    ShutdownPart(w, e);
  }

  lemma {:induction false} LoopInvRun(w: Loop, steps: seq<LoopStep>)
    requires LoopInv(w) && LoopRun(w, steps)
    ensures LoopInv(LoopExec(w, steps))
    decreases steps
  {
    hide LoopInv, LoopNext;
    if steps == [] {
    } else {
      LoopInvStep(w, steps[0]);
      LoopInvRun(LoopNext(w, steps[0]), steps[1..]);
    }
  }

  lemma StartLoopInv(n: nat)
    requires n >= 1
    ensures LoopInv(StartLoop(n))
  {
    StartInv(n);
  }

  /** Every task that this Run reserved was accepted by the pool, and the pool has finished everything. */
  predicate Served(w: Loop) {
    w.pool.accepted == w.before + w.reserved && Drained(w.pool)
  }

  /**
   When Run returns, every task it reserved has finished, if and only if the pool's
   stop flag was not set when Run began, or it reserved nothing.
   */
  lemma RunServesIff(n: nat, steps: seq<LoopStep>)
    requires n >= 1 && LoopRun(StartLoop(n), steps) && LoopExec(StartLoop(n), steps).place == BackFromRun
    ensures var w := LoopExec(StartLoop(n), steps);
            Served(w) <==> !w.stopped || w.reserved == []
  {
    StartLoopInv(n);
    LoopInvRun(StartLoop(n), steps);
    var w := LoopExec(StartLoop(n), steps);
    JoinedIsDrained(w.pool);
    hide PoolInv, Drained;
    assert w.stopped && w.reserved != [] ==> |w.pool.accepted| < |w.before + w.reserved|;
  }

  // -------------------------------------------------------- the failing input

  lemma {:induction false} LoopThen(w: Loop, steps: seq<LoopStep>, e: LoopStep)
    requires LoopRun(w, steps) && LoopEnabled(LoopExec(w, steps), e)
    ensures LoopRun(w, steps + [e]) && LoopExec(w, steps + [e]) == LoopNext(LoopExec(w, steps), e)
    decreases steps
  {
    if steps == [] {
      assert steps + [e] == [e] && [e][1..] == [];
    } else {
      assert (steps + [e])[0] == steps[0] && (steps + [e])[1..] == steps[1..] + [e];
      LoopThen(LoopNext(w, steps[0]), steps[1..], e);
    }
  }

  lemma Nothing(w: Loop) returns (steps: seq<LoopStep>)
    ensures LoopRun(w, steps) && LoopExec(w, steps) == w
  {
    steps := [];
  }

  lemma Then(w: Loop, before: seq<LoopStep>, e: LoopStep) returns (steps: seq<LoopStep>)
    requires LoopRun(w, before) && LoopEnabled(LoopExec(w, before), e)
    ensures LoopRun(w, steps) && LoopExec(w, steps) == LoopNext(LoopExec(w, before), e)
  {
    steps := before + [e];
    LoopThen(w, before, e);
  }

  /** A pool of one thread in the course of a shutdown. */
  function Closing1(thread: Thread, phase: Phase, call: Call): Pool {
    Start(1).(threads := [thread], stop := true, phase := phase, calls := [call])
  }

  lemma ClosingSteps()
    ensures !Start(1).stop && Start(1).accepted == [] && Start(1).calls == []
    ensures Enabled(Start(1), BeginShutdown) && Enabled(Closing1(Ready, Stopping, InProgress), NotifyAll)
    ensures Next(Start(1), BeginShutdown) == Closing1(Ready, Stopping, InProgress)
    ensures Next(Closing1(Ready, Stopping, InProgress), NotifyAll) == Closing1(Ready, Joining, InProgress)
    ensures Enabled(Closing1(Ready, Joining, InProgress), Poll(0))
    ensures Next(Closing1(Ready, Joining, InProgress), Poll(0)) == Closing1(Exited, Joining, InProgress)
    ensures Enabled(Closing1(Exited, Joining, InProgress), Join)
    ensures Next(Closing1(Exited, Joining, InProgress), Join) == Closing1(Exited, Joined, ReturnedJoined)
  {
  }

  /** A first Run, over one thread, that is stopped at once. */
  lemma FirstRunReturns() returns (steps: seq<LoopStep>)
    ensures LoopRun(StartLoop(1), steps)
    ensures LoopExec(StartLoop(1), steps)
            == Loop(Closing1(Exited, Joined, ReturnedJoined), BackFromRun, false, false, [], [])
  {
    hide LoopRun, LoopExec, Next, Enabled, Start;
    var w := StartLoop(1);
    ClosingSteps();
    steps := Nothing(w);
    steps := Then(w, steps, BeginRun);
    steps := Then(w, steps, StopCall);
    steps := Then(w, steps, CheckFlag);
    assert LoopExec(w, steps) == Loop(Closing1(Ready, Stopping, InProgress), Closing(0), false, false, [], []);
    steps := Then(w, steps, PoolAction(NotifyAll));
    steps := Then(w, steps, PoolAction(Poll(0)));
    steps := Then(w, steps, PoolAction(ThreadPool.Join));
    steps := Then(w, steps, ReturnFromRun);
  }

  lemma ClosedSteps(job: Job)
    ensures var p := Closing1(Exited, Joined, ReturnedJoined);
            && p.stop && p.accepted == [] && p.jobs == [] && p.active == 0 && |p.threads| == 1 && |p.calls| == 1
            && Next(p, Submit(job)) == p
            && Next(p, BeginShutdown) == p.(calls := [ReturnedJoined, ReturnedEarly])
  {
  }

  /** An input that shows it: a second Run reserves a task, and the pool drops it. */
  lemma SecondRunDropsTask(job: Job) returns (steps: seq<LoopStep>)
    ensures LoopRun(StartLoop(1), steps)
    ensures var w := LoopExec(StartLoop(1), steps);
            w.place == BackFromRun && w.stopped && w.reserved == [job] && w.pool.accepted == [] && !Served(w)
  {
    hide LoopRun, LoopExec, Next, Closing1;
    var w := StartLoop(1);
    ClosedSteps(job);
    steps := FirstRunReturns();
    steps := Then(w, steps, BeginRun);
    steps := Then(w, steps, CheckFlag);
    steps := Then(w, steps, Admit);
    steps := Then(w, steps, ReserveTask(job));
    steps := Then(w, steps, SubmitHeld);
    assert LoopExec(w, steps) == Loop(Closing1(Exited, Joined, ReturnedJoined), Top, true, true, [], [job]);
    steps := Then(w, steps, StopCall);
    steps := Then(w, steps, CheckFlag);
    steps := Then(w, steps, ReturnFromRun);
  }
}
