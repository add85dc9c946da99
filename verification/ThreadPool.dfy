/**
 The thread pool as interleaved steps. Each critical section under the mutex is
 one step; waiting on a condition variable releases the mutex and blocks in the
 same step; notifications are separate steps, since they follow the unlock, and
 may find no one waiting. Threads may also wake spuriously.
 */
module ThreadPool {
  import opened Tasks
  import opened Sums

  type Job = int

  /** Where a worker thread is: about to check the queue, blocked on it, running a job, or gone. */
  datatype Thread = Ready | Waiting | Busy(job: Job) | Exited

  /** Shutdown has not begun; has set the stop flag; is joining; has joined every thread. */
  datatype Phase = Open | Stopping | Joining | Joined

  /** A call of Shutdown: still at work, returned at once because stop was set, or returned after joining. */
  datatype Call = InProgress | ReturnedEarly | ReturnedJoined

  /** Where a caller of WaitIdle is: blocked, awake to check again, or back from the call. */
  datatype IdleState = Blocked | Awake | Back

  /** A call of WaitIdle, and how many jobs had been accepted when it was made. */
  datatype IdleCall = IdleCall(seen: nat, state: IdleState)

  /**
   `accepted`, `started` and `finished` log what happened to the jobs, and `calls`
   the calls of Shutdown in the order in which they took the mutex.
   */
  datatype Pool = Pool(
    threads: seq<Thread>,
    jobs: seq<Job>,
    active: int,
    stop: bool,
    phase: Phase,
    notifies: nat,
    idleCalls: seq<IdleCall>,
    accepted: seq<Job>,
    started: seq<Job>,
    finished: multiset<Job>,
    calls: seq<Call>)

  function Start(n: nat): Pool {
    Pool(seq(n, _ => Ready), [], 0, false, Open, 0, [], [], [], multiset{}, [])
  }

  datatype Step =
    | Submit(job: Job)
    | NotifyOne(woken: Option<nat>)
    | Poll(thread: nat)
    | Finish(thread: nat)
    | WakeSpuriously(thread: nat)
    | WaitIdle
    | RecheckIdle(call: nat)
    | WakeIdleSpuriously(call: nat)
    | BeginShutdown
    | NotifyAll
    | Join

  predicate Is(p: Pool, i: nat, t: Thread) {
    i < |p.threads| && p.threads[i] == t
  }

  predicate AllExited(p: Pool) {
    forall i :: 0 <= i < |p.threads| ==> p.threads[i] == Exited
  }

  predicate Enabled(p: Pool, e: Step) {
    match e
    case NotifyOne(Some(i)) => p.notifies > 0 && Is(p, i, Waiting)
    case NotifyOne(None) => p.notifies > 0 && Waiting !in p.threads
    case Poll(i) => Is(p, i, Ready)
    case Finish(i) => i < |p.threads| && p.threads[i].Busy?
    case WakeSpuriously(i) => Is(p, i, Waiting)
    case RecheckIdle(i) => i < |p.idleCalls| && p.idleCalls[i].state == Awake
    case WakeIdleSpuriously(i) => i < |p.idleCalls| && p.idleCalls[i].state == Blocked
    case NotifyAll => p.phase == Stopping
    case Join => p.phase == Joining && AllExited(p)
    case _ => true
  }

  predicate Idle(p: Pool) {
    p.jobs == [] && p.active == 0
  }

  /** A caller of WaitIdle that holds the mutex returns if the pool is idle, and blocks otherwise. */
  function IdleCheck(p: Pool): IdleState {
    if Idle(p) then Back else Blocked
  }

  /** notify_all on the idle condition. */
  function Notified(calls: seq<IdleCall>): seq<IdleCall> {
    seq(|calls|, i requires 0 <= i < |calls| =>
      if calls[i].state == Blocked then calls[i].(state := Awake) else calls[i])
  }

  function Awoken(threads: seq<Thread>): seq<Thread> {
    seq(|threads|, i requires 0 <= i < |threads| => if threads[i] == Waiting then Ready else threads[i])
  }

  /** Joining is over, and the call that waited for it returns. */
  function Returned(calls: seq<Call>): seq<Call> {
    seq(|calls|, i requires 0 <= i < |calls| => if calls[i] == InProgress then ReturnedJoined else calls[i])
  }

  function Next(p: Pool, e: Step): Pool
    requires Enabled(p, e)
  {
    match e
    case Submit(job) =>
      if p.stop then p
      else p.(jobs := p.jobs + [job], accepted := p.accepted + [job], notifies := p.notifies + 1)
    case NotifyOne(Some(i)) => p.(notifies := p.notifies - 1, threads := p.threads[i := Ready])
    case NotifyOne(None) => p.(notifies := p.notifies - 1)
    case Poll(i) =>
      if !p.stop && p.jobs == [] then p.(threads := p.threads[i := Waiting])
      else if p.jobs == [] then p.(threads := p.threads[i := Exited])
      else p.(threads := p.threads[i := Busy(p.jobs[0])],
              jobs := p.jobs[1..],
              active := p.active + 1,
              started := p.started + [p.jobs[0]])
    case Finish(i) =>
      var q := p.(threads := p.threads[i := Ready],
                  active := p.active - 1,
                  finished := p.finished + multiset{p.threads[i].job});
      if Idle(q) then q.(idleCalls := Notified(q.idleCalls)) else q
    case WakeSpuriously(i) => p.(threads := p.threads[i := Ready])
    case WaitIdle => p.(idleCalls := p.idleCalls + [IdleCall(|p.accepted|, IdleCheck(p))])
    case RecheckIdle(i) => p.(idleCalls := p.idleCalls[i := p.idleCalls[i].(state := IdleCheck(p))])
    case WakeIdleSpuriously(i) => p.(idleCalls := p.idleCalls[i := p.idleCalls[i].(state := Awake)])
    case BeginShutdown =>
      if p.stop then p.(calls := p.calls + [ReturnedEarly])
      else p.(stop := true, phase := Stopping, calls := p.calls + [InProgress])
    case NotifyAll => p.(phase := Joining, threads := Awoken(p.threads))
    case Join => p.(phase := Joined, calls := Returned(p.calls))
  }

  predicate Run(p: Pool, steps: seq<Step>)
    decreases steps
  {
    steps == [] || (Enabled(p, steps[0]) && Run(Next(p, steps[0]), steps[1..]))
  }

  function Exec(p: Pool, steps: seq<Step>): Pool
    requires Run(p, steps)
    decreases steps
  {
    if steps == [] then p else Exec(Next(p, steps[0]), steps[1..])
  }

  // --------------------------------------------------------------- invariant

  ghost function ReadyWeight(): Thread -> int {
    (t: Thread) => if t == Ready then 1 else 0
  }

  ghost function BusyWeight(): Thread -> int {
    (t: Thread) => if t.Busy? then 1 else 0
  }

  function JobOf(t: Thread): multiset<Job> {
    if t.Busy? then multiset{t.job} else multiset{}
  }

  /** The jobs that threads are running. */
  ghost function BusyJobs(threads: seq<Thread>): multiset<Job> {
    if threads == [] then multiset{} else JobOf(threads[0]) + BusyJobs(threads[1..])
  }

  lemma AddToBoth(first: multiset<Job>, a: multiset<Job>, x: multiset<Job>, b: multiset<Job>, y: multiset<Job>)
    requires a + x == b + y
    ensures first + a + x == first + b + y
  {
    assert first + a + x == first + (a + x);
    assert first + b + y == first + (b + y);
  }

  lemma BusyJobsFirst(threads: seq<Thread>)
    requires threads != []
    ensures BusyJobs(threads) == JobOf(threads[0]) + BusyJobs(threads[1..])
  {
  }

  lemma Swapped(a: multiset<Job>, b: multiset<Job>, rest: multiset<Job>)
    ensures a + rest + b == b + rest + a
  {
  }

  lemma {:induction false} BusyJobsUpdate(threads: seq<Thread>, i: nat, t: Thread)
    requires i < |threads|
    ensures BusyJobs(threads[i := t]) + JobOf(threads[i]) == BusyJobs(threads) + JobOf(t)
  {
    hide JobOf, BusyJobs;
    var changed := threads[i := t];
    BusyJobsFirst(threads);
    BusyJobsFirst(changed);
    if i == 0 {
      assert changed[1..] == threads[1..];
      Swapped(JobOf(t), JobOf(threads[0]), BusyJobs(threads[1..]));
    } else {
      assert changed[1..] == threads[1..][i - 1 := t];
      BusyJobsUpdate(threads[1..], i - 1, t);
      AddToBoth(JobOf(threads[0]), BusyJobs(changed[1..]), JobOf(threads[i]), BusyJobs(threads[1..]), JobOf(t));
    }
  }

  lemma {:induction false} BusyJobsSame(a: seq<Thread>, b: seq<Thread>)
    requires |a| == |b| && forall i :: 0 <= i < |a| ==> JobOf(a[i]) == JobOf(b[i])
    ensures BusyJobs(a) == BusyJobs(b)
  {
    if a == [] {
    } else {
      BusyJobsSame(a[1..], b[1..]);
    }
  }

  lemma {:induction false} BusyCount(threads: seq<Thread>)
    ensures 0 <= Sum(threads, BusyWeight()) == |BusyJobs(threads)| <= |threads|
  {
    if threads == [] {
    } else {
      BusyCount(threads[1..]);
    }
  }

  /** While a thread sleeps, every queued job has a ready thread or an undelivered notification of its own. */
  ghost predicate NoLostWakeup(p: Pool) {
    Waiting in p.threads ==> |p.jobs| <= Sum(p.threads, ReadyWeight()) + p.notifies
  }

  /** A blocked WaitIdle caller has something to wait for. */
  predicate NoLostIdle(p: Pool) {
    forall i :: 0 <= i < |p.idleCalls| && p.idleCalls[i].state == Blocked ==> !Idle(p)
  }

  /** If the WaitIdle call is back, every job accepted before it was made has finished. */
  predicate DoneIfBack(p: Pool, call: IdleCall) {
    call.seen <= |p.accepted| && (call.state == Back ==> multiset(p.accepted[..call.seen]) <= p.finished)
  }

  predicate IdleReturns(p: Pool) {
    forall i :: 0 <= i < |p.idleCalls| ==> DoneIfBack(p, p.idleCalls[i])
  }

  /** Threads leave only once stopped and drained; while some still sleep after stop, notify_all is to come. */
  predicate OrderlyStop(p: Pool) {
    && (p.stop <==> p.phase != Open)
    && (Exited in p.threads ==> p.stop && p.jobs == [])
    && (p.stop && Waiting in p.threads ==> p.phase == Stopping)
    && (p.phase == Joined ==> AllExited(p))
  }

  /** Jobs start in the order of acceptance; those started are finished or running, each once. */
  ghost predicate ExactlyOnce(p: Pool) {
    && p.accepted == p.started + p.jobs
    && multiset(p.started) == p.finished + BusyJobs(p.threads)
    && p.active == Sum(p.threads, BusyWeight())
  }

  /** The first Shutdown call waits until all threads are joined; every later one returns at once. */
  predicate FirstCallWaits(p: Pool) {
    && (p.stop <==> p.calls != [])
    && forall i :: 0 <= i < |p.calls| ==>
         p.calls[i] == if i > 0 then ReturnedEarly else if p.phase == Joined then ReturnedJoined else InProgress
  }

  ghost predicate PoolInv(p: Pool) {
    && |p.threads| >= 1 && NoLostWakeup(p) && NoLostIdle(p) && OrderlyStop(p)
    && ExactlyOnce(p) && FirstCallWaits(p) && IdleReturns(p)
  }

  lemma WakeupStep(p: Pool, e: Step)
    requires PoolInv(p) && Enabled(p, e)
    ensures NoLostWakeup(Next(p, e))
  {
    hide Sum, BusyJobs;
    var w := ReadyWeight();
    SumAtLeast(p.threads, w);
    match e {
      case NotifyOne(Some(i)) => SumUpdate(p.threads, i, Ready, w);
      case WakeSpuriously(i) => SumUpdate(p.threads, i, Ready, w);
      case Finish(i) => SumUpdate(p.threads, i, Ready, w);
      case Poll(i) =>
        SumUpdate(p.threads, i, Next(p, e).threads[i], w);
        SumAtLeast(Next(p, e).threads, w);
      case _ =>
    }
  }

  /** A thread that neither held nor takes a job changes nothing that is counted. */
  lemma IdleChange(p: Pool, i: nat, t: Thread)
    requires i < |p.threads| && !p.threads[i].Busy? && !t.Busy?
    ensures Sum(p.threads[i := t], BusyWeight()) == Sum(p.threads, BusyWeight())
    ensures BusyJobs(p.threads[i := t]) == BusyJobs(p.threads)
  {
    hide Sum, BusyJobs;
    SumUpdate(p.threads, i, t, BusyWeight());
    BusyJobsUpdate(p.threads, i, t);
    assert BusyJobs(p.threads[i := t]) == BusyJobs(p.threads[i := t]) + JobOf(p.threads[i]);
  }

  lemma TakesJob(p: Pool, i: nat, job: Job)
    requires i < |p.threads| && !p.threads[i].Busy?
    ensures Sum(p.threads[i := Busy(job)], BusyWeight()) == Sum(p.threads, BusyWeight()) + 1
    ensures BusyJobs(p.threads[i := Busy(job)]) == BusyJobs(p.threads) + multiset{job}
  {
    hide Sum, BusyJobs;
    SumUpdate(p.threads, i, Busy(job), BusyWeight());
    BusyJobsUpdate(p.threads, i, Busy(job));
    assert BusyJobs(p.threads[i := Busy(job)]) == BusyJobs(p.threads[i := Busy(job)]) + JobOf(p.threads[i]);
  }

  lemma DropsJob(p: Pool, i: nat)
    requires i < |p.threads| && p.threads[i].Busy?
    ensures Sum(p.threads[i := Ready], BusyWeight()) == Sum(p.threads, BusyWeight()) - 1
    ensures BusyJobs(p.threads) == BusyJobs(p.threads[i := Ready]) + multiset{p.threads[i].job}
  {
    hide Sum, BusyJobs;
    SumUpdate(p.threads, i, Ready, BusyWeight());
    BusyJobsUpdate(p.threads, i, Ready);
    assert BusyJobs(p.threads) == BusyJobs(p.threads) + JobOf(Ready);
  }

  lemma OncePoll(p: Pool, i: nat)
    requires ExactlyOnce(p) && Is(p, i, Ready)
    ensures ExactlyOnce(Next(p, Poll(i)))
  {
    hide Sum, BusyJobs;
    if p.jobs == [] {
      IdleChange(p, i, Next(p, Poll(i)).threads[i]);
    } else {
      TakesJob(p, i, p.jobs[0]);
      assert p.jobs == [p.jobs[0]] + p.jobs[1..];
    }
  }

  lemma OnceFinish(p: Pool, i: nat)
    requires ExactlyOnce(p) && i < |p.threads| && p.threads[i].Busy?
    ensures ExactlyOnce(Next(p, Finish(i)))
  {
    hide Sum, BusyJobs;
    DropsJob(p, i);
    var p' := Next(p, Finish(i));
    assert p'.finished + BusyJobs(p'.threads) == p.finished + (BusyJobs(p'.threads) + multiset{p.threads[i].job});
  }

  /** Waking the sleepers changes nothing that is counted. */
  lemma AwokenCounts(threads: seq<Thread>)
    ensures BusyJobs(Awoken(threads)) == BusyJobs(threads)
    ensures Sum(Awoken(threads), BusyWeight()) == Sum(threads, BusyWeight())
  {
    hide Sum, BusyJobs;
    BusyJobsSame(threads, Awoken(threads));
    SumPointwise(threads, Awoken(threads), BusyWeight());
    SumPointwise(Awoken(threads), threads, BusyWeight());
  }

  lemma AwokenMembers(threads: seq<Thread>)
    ensures Waiting !in Awoken(threads)
    ensures Exited in Awoken(threads) ==> Exited in threads
  {
  }

  lemma OnceStep(p: Pool, e: Step)
    requires ExactlyOnce(p) && Enabled(p, e)
    ensures ExactlyOnce(Next(p, e))
  {
    hide Sum, BusyJobs;
    match e {
      case NotifyOne(Some(i)) => IdleChange(p, i, Ready);
      case WakeSpuriously(i) => IdleChange(p, i, Ready);
      case Finish(i) => OnceFinish(p, i);
      case Poll(i) => OncePoll(p, i);
      case NotifyAll => AwokenCounts(p.threads);
      case _ =>
    }
  }

  lemma StopStep(p: Pool, e: Step)
    requires OrderlyStop(p) && Enabled(p, e)
    ensures OrderlyStop(Next(p, e))
  {
    hide Awoken;
    match e {
      case Poll(i) => assert p.threads[i] in p.threads;
      case NotifyAll => AwokenMembers(p.threads);
      case _ =>
    }
  }

  lemma IdleStep(p: Pool, e: Step)
    requires NoLostIdle(p) && ExactlyOnce(p) && Enabled(p, e)
    ensures NoLostIdle(Next(p, e))
  {
    hide Sum, BusyJobs, Awoken;
    SumAtLeast(p.threads, BusyWeight());
  }

  /** An idle pool has finished all it accepted. */
  lemma IdleIsFinished(p: Pool)
    requires ExactlyOnce(p) && Idle(p)
    ensures p.finished == multiset(p.accepted) && p.started == p.accepted
  {
    hide Sum, BusyJobs;
    BusyCount(p.threads);
  }

  lemma LogsGrow(p: Pool, e: Step)
    requires Enabled(p, e)
    ensures p.accepted <= Next(p, e).accepted && p.finished <= Next(p, e).finished
  {
  }

  lemma DoneStaysDone(p: Pool, p': Pool, call: IdleCall)
    requires DoneIfBack(p, call) && p.accepted <= p'.accepted && p.finished <= p'.finished
    ensures DoneIfBack(p', call)
  {
    assert p'.accepted[..call.seen] == p.accepted[..call.seen];
  }

  lemma DoneWhenIdle(p: Pool, call: IdleCall)
    requires ExactlyOnce(p) && Idle(p) && call.seen <= |p.accepted|
    ensures DoneIfBack(p, call)
  {
    IdleIsFinished(p);
    assert p.accepted == p.accepted[..call.seen] + p.accepted[call.seen..];
  }

  /** A call found after a step was made with it, or is an older one that returns only if the pool is idle. */
  lemma CallBefore(p: Pool, e: Step, i: nat)
    requires IdleReturns(p) && Enabled(p, e) && i < |Next(p, e).idleCalls|
    ensures var call := Next(p, e).idleCalls[i];
            DoneIfBack(p, call) || (call.seen <= |p.accepted| && Idle(p))
  {
    hide Awoken, Returned, Idle;
    if i < |p.idleCalls| {
      assert DoneIfBack(p, p.idleCalls[i]);
    }
  }

  lemma IdleReturnsStep(p: Pool, e: Step)
    requires IdleReturns(p) && ExactlyOnce(p) && Enabled(p, e)
    ensures IdleReturns(Next(p, e))
  {
    hide Next, ExactlyOnce, DoneIfBack, Idle;
    LogsGrow(p, e);
    forall i | 0 <= i < |Next(p, e).idleCalls|
      ensures DoneIfBack(Next(p, e), Next(p, e).idleCalls[i])
    {
      var call := Next(p, e).idleCalls[i];
      CallBefore(p, e, i);
      if !DoneIfBack(p, call) {
        DoneWhenIdle(p, call);
      }
      DoneStaysDone(p, Next(p, e), call);
    }
  }

  lemma CallsStep(p: Pool, e: Step)
    requires OrderlyStop(p) && FirstCallWaits(p) && Enabled(p, e)
    ensures FirstCallWaits(Next(p, e))
  {
  }

  lemma PoolStep(p: Pool, e: Step)
    requires PoolInv(p) && Enabled(p, e)
    ensures PoolInv(Next(p, e)) && |Next(p, e).threads| == |p.threads|
  {
    hide NoLostWakeup, NoLostIdle, OrderlyStop, ExactlyOnce, FirstCallWaits, IdleReturns;
    IdleReturnsStep(p, e);
    CallsStep(p, e);
    WakeupStep(p, e);
    OnceStep(p, e);
    StopStep(p, e);
    IdleStep(p, e);
  }

  /** The invariant holds in every reachable state, whatever the interleaving. */
  lemma {:induction false} PoolRun(p: Pool, steps: seq<Step>)
    requires PoolInv(p) && Run(p, steps)
    ensures PoolInv(Exec(p, steps)) && |Exec(p, steps).threads| == |p.threads|
    decreases steps
  {
    hide PoolInv;
    if steps == [] {
    } else {
      PoolStep(p, steps[0]);
      PoolRun(Next(p, steps[0]), steps[1..]);
    }
  }

  lemma {:induction false} NoneBusy(threads: seq<Thread>)
    requires forall i :: 0 <= i < |threads| ==> !threads[i].Busy?
    ensures Sum(threads, BusyWeight()) == 0 && BusyJobs(threads) == multiset{}
  {
    if threads == [] {
    } else {
      NoneBusy(threads[1..]);
    }
  }

  lemma {:induction false} NoneReady(threads: seq<Thread>)
    requires forall i :: 0 <= i < |threads| ==> threads[i] != Ready
    ensures Sum(threads, ReadyWeight()) == 0
  {
    if threads == [] {
    } else {
      NoneReady(threads[1..]);
    }
  }

  lemma StartInv(n: nat)
    requires n >= 1
    ensures PoolInv(Start(n))
  {
    NoneBusy(Start(n).threads);
  }

  // ------------------------------------------------------ progress and drain

  /** Steps the pool takes on its own once jobs or a shutdown are under way. */
  predicate Internal(e: Step) {
    e.NotifyOne? || e.Poll? || e.Finish? || e.WakeSpuriously? || e.NotifyAll? || e.Join?
  }

  /** There is queued or running work, or a shutdown that has not joined yet. */
  predicate Unfinished(p: Pool) {
    !Idle(p) || (p.stop && p.phase != Joined)
  }

  /**
   No deadlock: in every reachable state with work left, or with a shutdown that
   has not joined, some step other than a spurious wakeup is enabled.
   */
  lemma NoDeadlock(p: Pool) returns (e: Step)
    requires PoolInv(p) && Unfinished(p)
    ensures Enabled(p, e) && Internal(e) && !e.WakeSpuriously?
  {
    if i :| 0 <= i < |p.threads| && p.threads[i] == Ready {
      e := Poll(i);
    } else if i :| 0 <= i < |p.threads| && p.threads[i].Busy? {
      e := Finish(i);
    } else {
      NoneReady(p.threads);
      NoneBusy(p.threads);
      if i :| 0 <= i < |p.threads| && p.threads[i] == Waiting {
        assert p.threads[i] in p.threads;
        e := if p.phase == Stopping then NotifyAll else NotifyOne(Some(i));
      } else {
        assert p.threads[0] == Exited;
        e := if p.phase == Stopping then NotifyAll else Join;
      }
    }
  }

  /** A queued job is never forgotten: some thread is awake, or a notification is on its way. */
  lemma QueueIsServed(n: nat, steps: seq<Step>)
    requires n >= 1 && Run(Start(n), steps)
    ensures var p := Exec(Start(n), steps);
            p.jobs != [] ==>
              || p.notifies > 0
              || exists i :: 0 <= i < n && i < |p.threads| && (p.threads[i] == Ready || p.threads[i].Busy?)
  {
    StartInv(n);
    PoolRun(Start(n), steps);
    var p := Exec(Start(n), steps);
    if p.jobs != [] && p.notifies == 0 {
      assert p.threads[0] in p.threads;
      if forall i :: 0 <= i < |p.threads| ==> p.threads[i] != Ready {
        NoneReady(p.threads);
      }
    }
  }

  ghost function StepsLeft(): Thread -> int {
    (t: Thread) => if t == Exited then 0 else if t == Ready then 1 else 2
  }

  function PhaseLeft(phase: Phase): int {
    if phase == Stopping then 2 else if phase == Joining then 1 else 0
  }

  /** After stop, an upper bound on the steps the pool still takes. */
  ghost function ShutdownBound(p: Pool): int {
    3 * |p.jobs| + Sum(p.threads, StepsLeft()) + p.notifies + PhaseLeft(p.phase)
  }

  lemma ShutdownStep(p: Pool, e: Step)
    requires PoolInv(p) && p.stop && Enabled(p, e)
    ensures Next(p, e).stop && Next(p, e).accepted == p.accepted
    ensures ShutdownBound(Next(p, e)) <= ShutdownBound(p) - if Internal(e) then 1 else 0
  {
    hide Sum, BusyJobs;
    var p' := Next(p, e);
    var w := StepsLeft();
    match e {
      case NotifyOne(Some(i)) => SumUpdate(p.threads, i, Ready, w);
      case WakeSpuriously(i) => SumUpdate(p.threads, i, Ready, w);
      case Finish(i) => SumUpdate(p.threads, i, Ready, w);
      case Poll(i) => SumUpdate(p.threads, i, p'.threads[i], w);
      case NotifyAll => SumPointwise(p'.threads, p.threads, w);
      case _ =>
    }
  }

  function InternalSteps(steps: seq<Step>): nat {
    if steps == [] then 0 else (if Internal(steps[0]) then 1 else 0) + InternalSteps(steps[1..])
  }

  /**
   Shutdown terminates: once stop is set, every run takes at most ShutdownBound(p)
   further steps of the pool, whatever callers do meanwhile; with NoDeadlock, it
   reaches Joined.
   */
  lemma {:induction false} ShutdownTerminates(p: Pool, steps: seq<Step>)
    requires PoolInv(p) && p.stop && Run(p, steps)
    ensures InternalSteps(steps) <= ShutdownBound(p)
    ensures Exec(p, steps).accepted == p.accepted
    decreases steps
  {
    hide PoolInv;
    if steps == [] {
      SumAtLeast(p.threads, StepsLeft());
    } else {
      PoolStep(p, steps[0]);
      ShutdownStep(p, steps[0]);
      ShutdownTerminates(Next(p, steps[0]), steps[1..]);
    }
  }

  /** In every reachable state the active count is the number of running threads, at most n. */
  lemma ActiveIsBounded(n: nat, steps: seq<Step>)
    requires n >= 1 && Run(Start(n), steps)
    ensures var p := Exec(Start(n), steps);
            0 <= p.active == |BusyJobs(p.threads)| <= n
  {
    StartInv(n);
    PoolRun(Start(n), steps);
    BusyCount(Exec(Start(n), steps).threads);
  }

  // ------------------------------------------------ what a return promises

  /** Every accepted job has run exactly once, in order of acceptance, and nothing is queued or active. */
  predicate Drained(p: Pool) {
    p.jobs == [] && p.active == 0 && p.finished == multiset(p.accepted) && p.started == p.accepted
  }

  lemma IdleIsDrained(p: Pool)
    requires PoolInv(p) && Idle(p)
    ensures Drained(p)
  {
    hide ExactlyOnce;
    IdleIsFinished(p);
  }

  /** When a call of WaitIdle has returned, every job accepted before it was made has finished. */
  lemma WaitIdleReturnsDone(n: nat, steps: seq<Step>, i: nat)
    requires n >= 1 && Run(Start(n), steps)
    requires i < |Exec(Start(n), steps).idleCalls| && Exec(Start(n), steps).idleCalls[i].state == Back
    ensures var p := Exec(Start(n), steps);
            var seen := p.idleCalls[i].seen;
            seen <= |p.accepted| && multiset(p.accepted[..seen]) <= p.finished
  {
    StartInv(n);
    PoolRun(Start(n), steps);
  }

  lemma JoinedIsDrained(p: Pool)
    requires PoolInv(p) && p.phase == Joined
    ensures Drained(p)
  {
    assert p.threads[0] in p.threads;
    NoneBusy(p.threads);
    IdleIsDrained(p);
  }

  /** When the call that joins returns, every accepted job has run exactly once. */
  lemma JoinedMeansDrained(n: nat, steps: seq<Step>)
    requires n >= 1 && Run(Start(n), steps) && Exec(Start(n), steps).phase == Joined
    ensures Drained(Exec(Start(n), steps))
  {
    StartInv(n);
    PoolRun(Start(n), steps);
    JoinedIsDrained(Exec(Start(n), steps));
  }

  lemma NoBusyThread(p: Pool)
    requires ExactlyOnce(p) && p.active == 0
    ensures forall i :: 0 <= i < |p.threads| ==> !p.threads[i].Busy?
  {
    SumAtLeast(p.threads, BusyWeight());
    assert forall i :: 0 <= i < |p.threads| ==> p.threads[i] in p.threads;
  }

  lemma IdleStays(p: Pool, e: Step)
    requires ExactlyOnce(p) && p.stop && Idle(p) && Enabled(p, e)
    ensures Idle(Next(p, e)) && Next(p, e).stop
  {
    NoBusyThread(p);
    hide ExactlyOnce;
  }

  lemma {:induction false} StaysIdle(p: Pool, steps: seq<Step>)
    requires PoolInv(p) && p.stop && Idle(p) && Run(p, steps)
    ensures Idle(Exec(p, steps))
    decreases steps
  {
    hide Next, Idle, NoLostWakeup, NoLostIdle, OrderlyStop, ExactlyOnce, FirstCallWaits, IdleReturns;
    if steps == [] {
    } else {
      IdleStays(p, steps[0]);
      PoolStep(p, steps[0]);
      StaysIdle(Next(p, steps[0]), steps[1..]);
    }
  }

  /** However the run goes on, once the k-th Shutdown call has returned the pool is drained. */
  ghost predicate WaitsForDrain(p: Pool, k: nat) {
    forall steps :: Run(p, steps) && k < |Exec(p, steps).calls| && Exec(p, steps).calls[k] != InProgress ==>
                      Drained(Exec(p, steps))
  }

  lemma ReturnedIsDrained(p: Pool, steps: seq<Step>, k: nat)
    requires PoolInv(p) && p.stop && (k == 0 || Idle(p)) && Run(p, steps)
    requires k < |Exec(p, steps).calls| && Exec(p, steps).calls[k] != InProgress
    ensures Drained(Exec(p, steps))
  {
    PoolRun(p, steps);
    var q := Exec(p, steps);
    if Idle(p) {
      StaysIdle(p, steps);
      IdleIsDrained(q);
    } else {
      assert q.phase == Joined;
      JoinedIsDrained(q);
    }
  }

  /**
   When a Shutdown call can be relied on: made in a reachable state p, its return
   implies a drained pool in all continuations if and only if stop was not set
   yet, or the pool is idle already.
   */
  lemma ShutdownWaitsIff(n: nat, before: seq<Step>)
    requires n >= 1 && Run(Start(n), before)
    ensures var p := Exec(Start(n), before);
            WaitsForDrain(Next(p, BeginShutdown), |p.calls|) <==> !p.stop || Idle(p)
  {
    StartInv(n);
    PoolRun(Start(n), before);
    var p := Exec(Start(n), before);
    var p', k := Next(p, BeginShutdown), |p.calls|;
    PoolStep(p, BeginShutdown);
    assert Run(p', []) && Exec(p', []) == p';
    if !p.stop || Idle(p) {
      forall steps | Run(p', steps) && k < |Exec(p', steps).calls| && Exec(p', steps).calls[k] != InProgress
        ensures Drained(Exec(p', steps))
      {
        ReturnedIsDrained(p', steps, k);
      }
    }
  }

  /** The failing case: a second call has returned, and the job is still queued. */
  lemma SecondShutdownDoesNotWait(n: nat, job: Job)
    requires n >= 1
    ensures var steps := [Submit(job), BeginShutdown, BeginShutdown];
            && Run(Start(n), steps)
            && Exec(Start(n), steps).calls == [InProgress, ReturnedEarly]
            && Exec(Start(n), steps).jobs == [job]
  {
    var steps := [Submit(job), BeginShutdown, BeginShutdown];
    assert steps[1..] == [BeginShutdown, BeginShutdown];
    assert steps[1..][1..] == [BeginShutdown];
    assert steps[1..][1..][1..] == [];
    var p1 := Next(Start(n), steps[0]);
    var p2 := Next(p1, BeginShutdown);
    var p3 := Next(p2, BeginShutdown);
    assert Run(p3, []) && Exec(p3, []) == p3;
    assert Run(p2, [BeginShutdown]) && Exec(p2, [BeginShutdown]) == p3;
    assert Run(p1, steps[1..]) && Exec(p1, steps[1..]) == p3;
  }

  // ----------------------------------------------------- progress of WaitIdle

  /** A call made, or checked again, while nothing is queued or active returns in that step. */
  lemma IdleCallReturns(p: Pool, i: nat)
    requires p.jobs == [] && p.active == 0
    ensures var calls := Next(p, WaitIdle).idleCalls;
            |calls| == |p.idleCalls| + 1 && calls[|p.idleCalls|] == IdleCall(|p.accepted|, Back)
    ensures Enabled(p, RecheckIdle(i)) ==> Next(p, RecheckIdle(i)).idleCalls[i].state == Back
  {
  }

  /** And one made while something is queued or active blocks. */
  lemma BusyCallBlocks(p: Pool, i: nat)
    requires p.jobs != [] || p.active != 0
    ensures var calls := Next(p, WaitIdle).idleCalls;
            |calls| == |p.idleCalls| + 1 && calls[|p.idleCalls|] == IdleCall(|p.accepted|, Blocked)
    ensures Enabled(p, RecheckIdle(i)) ==> Next(p, RecheckIdle(i)).idleCalls[i].state == Blocked
  {
  }

  /** Steps of the pool and of callers that wait: all but new calls and spurious wakeups. */
  predicate Proceeds(e: Step) {
    e.NotifyOne? || e.Poll? || e.Finish? || e.NotifyAll? || e.Join? || e.RecheckIdle?
  }

  /** Some call of WaitIdle has not returned. */
  predicate SomeoneWaits(p: Pool) {
    exists i :: 0 <= i < |p.idleCalls| && p.idleCalls[i].state != Back
  }

  /** As long as a call of WaitIdle has not returned, some step proceeds. */
  lemma WaitersProceed(p: Pool) returns (e: Step)
    requires PoolInv(p) && SomeoneWaits(p)
    ensures Enabled(p, e) && Proceeds(e)
  {
    var i :| 0 <= i < |p.idleCalls| && p.idleCalls[i].state != Back;
    if p.idleCalls[i].state == Awake {
      e := RecheckIdle(i);
    } else {
      e := NoDeadlock(p);
    }
  }

  ghost function ThreadLeft(): Thread -> int {
    (t: Thread) => if t == Ready then 1 else if t.Busy? then 2 else 0
  }

  /** What a WaitIdle call may still do: an awake one may have to block once more if the pool is not idle. */
  ghost function CallLeft(idle: bool): IdleCall -> int {
    (c: IdleCall) => if c.state == Back then 0 else if c.state == Blocked then 2 else if idle then 1 else 3
  }

  function JoinLeft(p: Pool): int {
    if p.phase == Stopping then |p.threads| + 2 else if p.phase == Joining then 1 else 0
  }

  ghost function PoolLeft(p: Pool): int {
    2 * |p.jobs| + Sum(p.threads, ThreadLeft()) + 2 * p.notifies + JoinLeft(p)
  }

  ghost function CallsLeft(p: Pool): int {
    Sum(p.idleCalls, CallLeft(Idle(p)))
  }

  /** An upper bound on the steps that proceed, if no job is submitted any more. */
  ghost function StepsBound(p: Pool): int {
    PoolLeft(p) + CallsLeft(p)
  }

  /** What a new call or a spurious wakeup adds to it. */
  function Adds(n: nat, e: Step): int {
    match e
    case WaitIdle => 2
    case BeginShutdown => n + 2
    case WakeSpuriously(_) => 1
    case WakeIdleSpuriously(_) => 1
    case _ => 0
  }

  lemma StepsBoundNonNegative(p: Pool)
    ensures StepsBound(p) >= 0
  {
    SumAtLeast(p.threads, ThreadLeft());
    SumAtLeast(p.idleCalls, CallLeft(Idle(p)));
  }

  lemma {:induction false} AwokenLeft(threads: seq<Thread>)
    ensures |Awoken(threads)| == |threads|
    ensures Sum(Awoken(threads), ThreadLeft()) <= Sum(threads, ThreadLeft()) + |threads|
  {
    if threads == [] {
    } else {
      AwokenLeft(threads[1..]);
      assert Awoken(threads)[1..] == Awoken(threads[1..]);
    }
  }

  lemma PoolLeftStep(p: Pool, e: Step)
    requires Enabled(p, e) && !e.Submit?
    ensures PoolLeft(Next(p, e)) <= PoolLeft(p) - (if Proceeds(e) && !e.RecheckIdle? then 1 else 0)
                                    + if e.BeginShutdown? || e.WakeSpuriously? then Adds(|p.threads|, e) else 0
    ensures |Next(p, e).threads| == |p.threads|
  {
    hide Sum, Awoken, Notified, Returned;
    var w := ThreadLeft();
    match e {
      case NotifyOne(Some(i)) => SumUpdate(p.threads, i, Ready, w);
      case WakeSpuriously(i) => SumUpdate(p.threads, i, Ready, w);
      case Finish(i) => SumUpdate(p.threads, i, Ready, w);
      case Poll(i) => SumUpdate(p.threads, i, Next(p, e).threads[i], w);
      case NotifyAll =>
        AwokenLeft(p.threads);
      case _ =>
    }
  }

  /** Without new jobs an idle pool stays idle. */
  lemma IdleUntilSubmit(p: Pool, e: Step)
    requires ExactlyOnce(p) && Idle(p) && Enabled(p, e) && !e.Submit?
    ensures Idle(Next(p, e))
  {
    NoBusyThread(p);
    hide ExactlyOnce;
  }

  /** Only the end of a job makes a busy pool idle. */
  lemma BusyUntilFinish(p: Pool, e: Step)
    requires !Idle(p) && p.active >= 0 && Enabled(p, e) && !e.Finish?
    ensures !Idle(Next(p, e))
  {
  }

  lemma NotifiedLeft(p: Pool, i: nat)
    requires PoolInv(p) && Enabled(p, Finish(i))
    ensures CallsLeft(Next(p, Finish(i))) <= CallsLeft(p)
  {
    hide Sum, ExactlyOnce, NoLostWakeup, OrderlyStop, FirstCallWaits, IdleReturns;
    var p' := Next(p, Finish(i));
    if Idle(p) {
      IdleUntilSubmit(p, Finish(i));
    }
    SumDominated(p'.idleCalls, p.idleCalls, CallLeft(Idle(p')), CallLeft(Idle(p)));
  }

  lemma ActiveNonNegative(p: Pool)
    requires ExactlyOnce(p)
    ensures p.active >= 0
  {
    SumAtLeast(p.threads, BusyWeight());
  }

  lemma CallsLeftStep(p: Pool, e: Step)
    requires PoolInv(p) && Enabled(p, e) && !e.Submit?
    ensures CallsLeft(Next(p, e)) <= CallsLeft(p) - (if e.RecheckIdle? then 1 else 0)
                                     + if e.WaitIdle? || e.WakeIdleSpuriously? then Adds(|p.threads|, e) else 0
  {
    hide Sum, ExactlyOnce, NoLostWakeup, OrderlyStop, FirstCallWaits, IdleReturns, Awoken, Returned;
    ActiveNonNegative(p);
    var p', w := Next(p, e), CallLeft(Idle(p));
    if e.Finish? {
      NotifiedLeft(p, e.thread);
    } else {
      if Idle(p) {
        IdleUntilSubmit(p, e);
      } else {
        BusyUntilFinish(p, e);
      }
      match e {
        case WaitIdle => SumAppend(p.idleCalls, p'.idleCalls[|p.idleCalls|], w);
        case RecheckIdle(i) => SumUpdate(p.idleCalls, i, p'.idleCalls[i], w);
        case WakeIdleSpuriously(i) => SumUpdate(p.idleCalls, i, p'.idleCalls[i], w);
        case _ =>
      }
    }
  }

  lemma StepsBoundStep(p: Pool, e: Step)
    requires PoolInv(p) && Enabled(p, e) && !e.Submit?
    ensures StepsBound(Next(p, e)) <= StepsBound(p) - (if Proceeds(e) then 1 else 0) + Adds(|p.threads|, e)
  {
    hide PoolInv, PoolLeft, CallsLeft, Next, Enabled;
    PoolLeftStep(p, e);
    CallsLeftStep(p, e);
  }

  function Proceeding(steps: seq<Step>): nat {
    if steps == [] then 0 else (if Proceeds(steps[0]) then 1 else 0) + Proceeding(steps[1..])
  }

  function Added(n: nat, steps: seq<Step>): int {
    if steps == [] then 0 else Adds(n, steps[0]) + Added(n, steps[1..])
  }

  /**
   WaitIdle returns: from any reachable state, in every run in which no job is
   submitted, only so many steps of the pool and of waiting callers can be taken:
   StepsBound(p), and a few more for each new call and each spurious wakeup. As
   long as a call has not returned some such step is enabled (WaitersProceed), so
   a run that goes on ends with every call back.
   */
  lemma {:induction false} WaitIdleTerminates(p: Pool, steps: seq<Step>)
    requires PoolInv(p) && Run(p, steps) && forall e :: e in steps ==> !e.Submit?
    ensures Proceeding(steps) <= StepsBound(p) + Added(|p.threads|, steps)
    decreases steps
  {
    hide PoolInv, StepsBound, Next, Adds;
    if steps == [] {
      StepsBoundNonNegative(p);
    } else {
      var p' := Next(p, steps[0]);
      PoolStep(p, steps[0]);
      StepsBoundStep(p, steps[0]);
      WaitIdleTerminates(p', steps[1..]);
    }
  }

  lemma {:induction false} AllProceeding(steps: seq<Step>)
    requires forall e :: e in steps ==> Proceeds(e)
    ensures Proceeding(steps) == |steps| && forall n :: Added(n, steps) == 0
  {
    if steps == [] {
    } else {
      AllProceeding(steps[1..]);
    }
  }

  /** A run of steps that proceed and cannot be extended by another has every call back. */
  lemma WaitIdleReturns(p: Pool, steps: seq<Step>)
    requires PoolInv(p) && Run(p, steps) && forall e :: e in steps ==> Proceeds(e)
    ensures |steps| <= StepsBound(p)
    ensures (forall e :: Proceeds(e) ==> !Enabled(Exec(p, steps), e)) ==>
              forall i :: 0 <= i < |Exec(p, steps).idleCalls| ==> Exec(p, steps).idleCalls[i].state == Back
  {
    hide PoolInv, StepsBound;
    WaitIdleTerminates(p, steps);
    AllProceeding(steps);
    PoolRun(p, steps);
    var q := Exec(p, steps);
    if SomeoneWaits(q) {
      var e := WaitersProceed(q);
    }
  }
}
