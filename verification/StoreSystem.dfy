/**
 The Redis store with its workers as one closed system: a worker holds what it
 parsed from the reply of a reserve, and completes with that. Every run of it is a
 run of the protocol and the other way round, so every theorem about the protocol
 is a theorem about what Redis and the workers hold.
 */
module StoreSystem {
  import opened Tasks
  import opened TaskJson
  import opened RetryDelays
  import opened Sums
  import opened Broker
  import opened Protocol
  import opened Safety
  import opened RedisStore
  import opened StoreRefinement

  datatype RedisSystem = RedisSystem(st: Store, now: int, flight: seq<TaskMessage>)

  function EmptySystem(now: int): RedisSystem {
    RedisSystem(EMPTY_STORE, now, [])
  }

  /** What happens to the store; a promotion names the document that the script picks. */
  datatype Call =
    | TickCall(elapsed: nat)
    | EnqueueCall(task: TaskMessage, t: int)
    | PromoteCall(member: Json, t: int)
    | ReserveCall(t: int)
    | ReclaimCall(id: string, t: int, timeout: int)
    | CompleteCall(slot: nat, outcome: Outcome, t: int)
    | CrashCall(slot: nat)
    | ReviveCall(id: string)

  predicate CallEnabled(r: RedisSystem, c: Call) {
    match c
    case TickCall(_) => true
    case EnqueueCall(_, t) => t <= r.now
    case PromoteCall(member, t) => t <= r.now && NextDueMember(r.st, member, t)
    case ReserveCall(t) => t <= r.now
    case ReclaimCall(_, t, _) => t <= r.now
    case CompleteCall(slot, _, t) => slot < |r.flight| && t <= r.now
    case CrashCall(slot) => slot < |r.flight|
    case ReviveCall(_) => true
  }

  /** The script that a worker calls for its own copy. */
  function CompleteStore(st: Store, copy: TaskMessage, d: Decision, t: int): Store {
    match d
    case DoAck => AckScript(st, copy.id, SUCCESS_JSON)
    case DoRetry(reason) =>
      var r := RetriedCopy(copy, reason, t);
      RetryScript(st, copy.id, ToJson(r), r.runAtMs.value, reason)
    case DoFail(reason) => FailScript(st, copy.id, reason)
  }

  /** The message that the caller of a reserve gets: the reply, if it parses. */
  function Received(reply: Option<Json>): seq<TaskMessage> {
    if reply.Some? && FromJson(reply.value).Ok? then [FromJson(reply.value).value] else []
  }

  function CallNext(r: RedisSystem, c: Call): RedisSystem
    requires CallEnabled(r, c)
  {
    match c
    case TickCall(elapsed) => r.(now := r.now + elapsed)
    case EnqueueCall(m, t) => r.(st := EnqueueTransaction(r.st, m, t))
    case PromoteCall(member, _) => r.(st := PromoteScript(r.st, member).0)
    case ReserveCall(t) =>
      var (st, reply) := ReserveScript(r.st, t);
      r.(st := st, flight := r.flight + Received(reply))
    case ReclaimCall(id, t, timeout) => r.(st := ReclaimScript(r.st, id, t, timeout).0)
    case CompleteCall(slot, outcome, t) =>
      var copy := r.flight[slot];
      r.(st := CompleteStore(r.st, copy, Decide(copy, outcome), t), flight := Without(r.flight, slot))
    case CrashCall(slot) => r.(flight := Without(r.flight, slot))
    case ReviveCall(id) => r.(st := ReviveScript(r.st, id).0)
  }

  predicate CallRun(r: RedisSystem, calls: seq<Call>)
    decreases calls
  {
    calls == [] || (CallEnabled(r, calls[0]) && CallRun(CallNext(r, calls[0]), calls[1..]))
  }

  function CallExec(r: RedisSystem, calls: seq<Call>): RedisSystem
    requires CallRun(r, calls)
    decreases calls
  {
    if calls == [] then r else CallExec(CallNext(r, calls[0]), calls[1..])
  }

  // ---------------------------------------------------------------- one step

  /** The call by which the store carries out a step of the protocol. */
  function CallOf(e: Step): Call {
    match e
    case Tick(elapsed) => TickCall(elapsed)
    case EnqueueStep(m, t) => EnqueueCall(m, t)
    case PromoteStep(m, t) => PromoteCall(ToJson(m), t)
    case ReserveStep(t) => ReserveCall(t)
    case ReclaimStep(id, t, timeout) => ReclaimCall(id, t, timeout)
    case CompleteStep(slot, outcome, t) => CompleteCall(slot, outcome, t)
    case CrashStep(slot) => CrashCall(slot)
    case ReviveStep(id) => ReviveCall(id)
  }

  /** The store represents the typed broker, and the workers hold the same copies. */
  ghost predicate Matches(r: RedisSystem, s: System) {
    Represents(r.st, s.b) && r.now == s.now && r.flight == s.flight
  }

  /** Times and counts fit their C++ types. */
  ghost predicate Fits(s: System, e: Step)
    requires Enabled(s, e)
  {
    match e
    case EnqueueStep(m, _) => Representable(m)
    case ReserveStep(t) => IsInt64(t)
    case CompleteStep(slot, outcome, t) =>
      var copy := s.flight[slot];
      var d := Decide(copy, outcome);
      d.DoRetry? ==> Representable(RetriedCopy(copy, d.reason, t))
    case _ => true
  }

  lemma CompletionMatches(st: Store, b: BrokerState, copy: TaskMessage, d: Decision, t: int)
    requires Represents(st, b) && (d.DoRetry? ==> Representable(RetriedCopy(copy, d.reason, t)))
    ensures Represents(CompleteStore(st, copy, d, t), CompleteBroker(b, copy, d, t))
  {
    hide Represents, ToJson, Representable;
    match d {
      case DoAck => AckRefines(st, b, copy.id);
      case DoRetry(reason) => RetryRefines(st, b, copy, reason, t);
      case DoFail(reason) => FailRefines(st, b, copy.id, reason);
    }
  }

  lemma ReserveMatches(r: RedisSystem, s: System, t: int)
    requires Matches(r, s) && IsInt64(t) && t <= r.now
    ensures Matches(CallNext(r, ReserveCall(t)), NextReserve(s, t))
  {
    hide Represents, FromJson, UuidShaped, ValidPolicy, ReserveScript;
    ReserveRefines(r.st, s.b, t);
  }

  lemma StepMatches(r: RedisSystem, s: System, e: Step)
    requires Matches(r, s) && Enabled(s, e) && Fits(s, e)
    ensures CallEnabled(r, CallOf(e)) && Matches(CallNext(r, CallOf(e)), Next(s, e))
  {
    hide Represents, ToJson, FromJson, NextReserve, CompleteStore, CompleteBroker, NextDueMember;
    match e {
      case EnqueueStep(m, t) => EnqueueRefines(r.st, s.b, m, t);
      case PromoteStep(m, t) => PromoteRefines(r.st, s.b, m, t);
      case ReserveStep(t) => ReserveMatches(r, s, t);
      case ReclaimStep(id, t, timeout) => ReclaimRefines(r.st, s.b, id, t, timeout);
      case CompleteStep(slot, outcome, t) =>
        CompletionMatches(r.st, s.b, s.flight[slot], Decide(s.flight[slot], outcome), t);
      case ReviveStep(id) => ReviveRefines(r.st, s.b, id);
      case _ =>
    }
  }

  /** Whatever call the store can take is one of the protocol's steps. */
  lemma CallIsStep(r: RedisSystem, s: System, c: Call) returns (e: Step)
    requires Matches(r, s) && CallEnabled(r, c)
    ensures CallOf(e) == c && Enabled(s, e)
  {
    hide Represents, ToJson, NextDueMember, NextDue;
    match c {
      case TickCall(elapsed) => e := Tick(elapsed);
      case EnqueueCall(m, t) => e := EnqueueStep(m, t);
      case PromoteCall(member, t) =>
        var m := PickedMemberIsDue(r.st, s.b, member, t);
        e := PromoteStep(m, t);
      case ReserveCall(t) => e := ReserveStep(t);
      case ReclaimCall(id, t, timeout) => e := ReclaimStep(id, t, timeout);
      case CompleteCall(slot, outcome, t) => e := CompleteStep(slot, outcome, t);
      case CrashCall(slot) => e := CrashStep(slot);
      case ReviveCall(id) => e := ReviveStep(id);
    }
  }

  // ------------------------------------------------ what callers must ensure

  /** Arguments are of their C++ types, and a completion's reading leaves room for the longest retry wait. */
  predicate ValidCall(r: RedisSystem, c: Call)
    requires CallEnabled(r, c)
  {
    match c
    case EnqueueCall(m, _) => Representable(m)
    case ReserveCall(t) => IsInt64(t)
    case CompleteCall(slot, _, t) => IsInt64(t) && t + MaxRetryDelayMs(r.flight[slot].policy) <= INT64_MAX
    case _ => true
  }

  /** The same for a step of the protocol. */
  predicate ValidStep(s: System, e: Step)
    requires Enabled(s, e)
  {
    match e
    case EnqueueStep(m, _) => Representable(m)
    case ReserveStep(t) => IsInt64(t)
    case CompleteStep(slot, _, t) => IsInt64(t) && t + MaxRetryDelayMs(s.flight[slot].policy) <= INT64_MAX
    case _ => true
  }

  lemma SameValidity(r: RedisSystem, s: System, e: Step)
    requires Enabled(s, e) && r.flight == s.flight && CallEnabled(r, CallOf(e))
    ensures ValidCall(r, CallOf(e)) <==> ValidStep(s, e)
  {
    hide Representable, MaxRetryDelayMs, NextDueMember, ToJson;
  }

  predicate ValidCallRun(r: RedisSystem, calls: seq<Call>)
    decreases calls
  {
    || calls == []
    || (CallEnabled(r, calls[0]) && ValidCall(r, calls[0]) && ValidCallRun(CallNext(r, calls[0]), calls[1..]))
  }

  predicate ValidRun(s: System, steps: seq<Step>)
    decreases steps
  {
    steps == [] || (Enabled(s, steps[0]) && ValidStep(s, steps[0]) && ValidRun(Next(s, steps[0]), steps[1..]))
  }

  ghost predicate CopiesFit(s: System) {
    forall m :: IsCopy(s, m) ==> Representable(m)
  }

  lemma RetriedCopyFits(m: TaskMessage, reason: string, t: int)
    requires Parseable(m) && Representable(m) && ShouldRetry(m)
    requires IsInt64(t) && t + MaxRetryDelayMs(m.policy) <= INT64_MAX
    ensures Representable(RetriedCopy(m, reason, t))
  {
    RetryDelayBounded(m.policy, m.retryCount + 1);
  }

  lemma CompletionFits(s: System, e: Step)
    requires CopiesFit(s) && FlightReadable(s) && Enabled(s, e) && ValidStep(s, e)
    ensures Fits(s, e)
  {
    hide UuidShaped, ComputeRetryDelayMs, MaxRetryDelayMs, Representable;
    if e.CompleteStep? {
      var copy := s.flight[e.slot];
      var d := Decide(copy, e.outcome);
      assert IsCopy(s, copy);
      if d.DoRetry? {
        RetriedCopyFits(copy, d.reason, e.t);
      }
    }
  }

  lemma CopyFits(s: System, e: Step, m: TaskMessage)
    requires CopiesFit(s) && Enabled(s, e) && Fits(s, e) && IsCopy(Next(s, e), m)
    ensures Representable(m)
  {
    hide Parseable, ComputeRetryDelayMs;
    if e.CompleteStep? && Decide(s.flight[e.slot], e.outcome).DoRetry? {
      assert m == RetriedCopy(s.flight[e.slot], Decide(s.flight[e.slot], e.outcome).reason, e.t) || IsCopy(s, m);
    } else {
      var o := CopyOrigin(s, e, m);
      hide IsCopy, Next;
    }
  }

  /** What the two systems share along a run. */
  ghost predicate InStep(r: RedisSystem, s: System) {
    Matches(r, s) && CopiesFit(s) && FlightReadable(s)
  }

  lemma StayInStep(r: RedisSystem, s: System, e: Step)
    requires InStep(r, s) && Enabled(s, e) && ValidStep(s, e)
    ensures CallEnabled(r, CallOf(e)) && InStep(CallNext(r, CallOf(e)), Next(s, e))
  {
    hide Represents, Representable, CallOf, CallEnabled, ValidStep, Fits, Next, CallNext, IsCopy, FlightReadable;
    CompletionFits(s, e);
    StepMatches(r, s, e);
    ReadableStep(s, e);
    forall m | IsCopy(Next(s, e), m)
      ensures Representable(m)
    {
      CopyFits(s, e, m);
    }
  }

  lemma EmptyInStep(start: int)
    ensures InStep(EmptySystem(start), Init(start))
  {
  }

  // --------------------------------------------------------- both directions

  lemma {:induction false} CallsAreSteps(r: RedisSystem, s: System, calls: seq<Call>) returns (steps: seq<Step>)
    requires InStep(r, s) && ValidCallRun(r, calls)
    ensures CallRun(r, calls) && Run(s, steps) && InStep(CallExec(r, calls), Exec(s, steps))
    decreases calls
  {
    hide CallOf, CallEnabled, ValidCall, ValidStep, CallNext, Next, Represents, CopiesFit, FlightReadable;
    if calls == [] {
      steps := [];
    } else {
      var e := CallIsStep(r, s, calls[0]);
      SameValidity(r, s, e);
      StayInStep(r, s, e);
      var rest := CallsAreSteps(CallNext(r, calls[0]), Next(s, e), calls[1..]);
      steps := [e] + rest;
      assert steps[1..] == rest;
    }
  }

  /** The calls by which the store carries out a run. */
  function CallsOf(steps: seq<Step>): seq<Call> {
    if steps == [] then [] else [CallOf(steps[0])] + CallsOf(steps[1..])
  }

  lemma {:induction false} StepsAreCalls(r: RedisSystem, s: System, steps: seq<Step>)
    requires InStep(r, s) && ValidRun(s, steps)
    ensures Run(s, steps) && CallRun(r, CallsOf(steps)) && InStep(CallExec(r, CallsOf(steps)), Exec(s, steps))
    decreases steps
  {
    hide CallOf, CallEnabled, ValidStep, CallNext, Next, Represents, CopiesFit, FlightReadable;
    if steps == [] {
    } else {
      StayInStep(r, s, steps[0]);
      StepsAreCalls(CallNext(r, CallOf(steps[0])), Next(s, steps[0]), steps[1..]);
      assert CallsOf(steps)[1..] == CallsOf(steps[1..]);
    }
  }

  /**
   Every run of the store and its workers, from empty, is a run of the protocol:
   whatever documents the promotion script picks, and whatever replies the workers
   parse, there are steps of the protocol that end with a typed broker which the
   store represents, and with the same copies in the workers' hands. That retries
   stay within their types is derived, not assumed.
   */
  lemma EveryStoreRunIsAProtocolRun(start: int, calls: seq<Call>) returns (steps: seq<Step>)
    requires ValidCallRun(EmptySystem(start), calls)
    ensures CallRun(EmptySystem(start), calls) && Run(Init(start), steps)
    ensures Matches(CallExec(EmptySystem(start), calls), Exec(Init(start), steps))
  {
    hide Matches;
    EmptyInStep(start);
    steps := CallsAreSteps(EmptySystem(start), Init(start), calls);
  }

  /** And the store can take every run of the protocol, of messages valid or not, with the same outcome. */
  lemma StoreFollowsEveryRun(start: int, steps: seq<Step>)
    requires ValidRun(Init(start), steps)
    ensures Run(Init(start), steps) && CallRun(EmptySystem(start), CallsOf(steps))
    ensures Matches(CallExec(EmptySystem(start), CallsOf(steps)), Exec(Init(start), steps))
  {
    hide Matches;
    EmptyInStep(start);
    StepsAreCalls(EmptySystem(start), Init(start), steps);
  }

  // ------------------------------------------------------- malformed branches

  predicate LeaseShaped(j: Json) {
    j.Obj? && "reserved_at_ms" in j.fields && j.fields["reserved_at_ms"].Int?
  }

  /** Every stored document has a string id, and every running one a reservation time. */
  ghost predicate WellFormed(st: Store) {
    && (forall j :: j in st.pending ==> HasStringId(j))
    && (forall j :: j in st.delayed ==> HasStringId(j))
    && (forall id :: id in st.running ==> HasStringId(st.running[id]) && LeaseShaped(st.running[id]))
    && (forall j :: j in st.dead ==> HasStringId(j))
  }

  /** What the scripts write back keeps its id. */
  lemma EditsKeepId(j: Json, t: int, reason: string)
    requires HasStringId(j)
    ensures HasStringId(Obj(ReserveEdit(j.fields, t))) && LeaseShaped(Obj(ReserveEdit(j.fields, t)))
    ensures HasStringId(Obj(PromoteEdit(j.fields))) && HasStringId(Obj(ReclaimEdit(j.fields)))
    ensures HasStringId(Obj(FailEdit(j.fields, reason))) && HasStringId(Obj(ReviveEdit(j.fields)))
  {
  }

  lemma SerialisedHasId(m: TaskMessage)
    ensures HasStringId(ToJson(m))
  {
    FieldsOf(m);
  }

  lemma WellFormedReserve(st: Store, t: int)
    requires WellFormed(st)
    ensures WellFormed(ReserveScript(st, t).0)
  {
    hide HasStringId, ReserveEdit;
    if st.pending != [] {
      var j := st.pending[|st.pending| - 1];
      assert j in st.pending;
      EditsKeepId(j, t, "");
    }
  }

  lemma WellFormedReclaim(st: Store, id: string, t: int, timeout: int)
    requires WellFormed(st)
    ensures WellFormed(ReclaimScript(st, id, t, timeout).0)
  {
    hide HasStringId, ReclaimEdit;
    if id in st.running {
      EditsKeepId(st.running[id], t, "");
    }
  }

  lemma WellFormedFail(st: Store, id: string, reason: string)
    requires WellFormed(st)
    ensures WellFormed(FailScript(st, id, reason))
  {
    hide HasStringId, FailEdit;
    if id in st.running {
      EditsKeepId(st.running[id], 0, reason);
    }
  }

  lemma WellFormedRevive(st: Store, id: string)
    requires WellFormed(st)
    ensures WellFormed(ReviveScript(st, id).0)
  {
    var k := FirstEntry(st.dead, id);
    hide HasStringId, ReviveEdit, FirstEntry;
    if k < |st.dead| {
      assert st.dead[k] in st.dead;
      EditsKeepId(st.dead[k], 0, "");
    }
  }

  lemma WellFormedEnqueue(st: Store, m: TaskMessage, t: int)
    requires WellFormed(st)
    ensures WellFormed(EnqueueTransaction(st, m, t))
  {
    hide HasStringId, ToJson;
    SerialisedHasId(EnqueuedCopy(m, t));
  }

  lemma WellFormedPromote(st: Store, j: Json)
    requires WellFormed(st) && j in st.delayed
    ensures WellFormed(PromoteScript(st, j).0)
  {
    hide HasStringId, PromoteEdit;
    EditsKeepId(j, 0, "");
  }

  lemma WellFormedRetry(st: Store, r: TaskMessage, id: string, reason: string)
    requires WellFormed(st) && r.runAtMs.Some?
    ensures WellFormed(RetryScript(st, id, ToJson(r), r.runAtMs.value, reason))
  {
    hide HasStringId, ToJson;
    SerialisedHasId(r);
  }

  lemma WellFormedAck(st: Store, id: string, result: Json)
    requires WellFormed(st)
    ensures WellFormed(AckScript(st, id, result))
  {
    hide HasStringId;
  }

  lemma WellFormedCall(r: RedisSystem, c: Call)
    requires WellFormed(r.st) && CallEnabled(r, c)
    ensures WellFormed(CallNext(r, c).st)
  {
    hide WellFormed, ToJson, EnqueueTransaction, PromoteScript, ReserveScript, ReclaimScript,
      RetryScript, FailScript, AckScript, ReviveScript, FromJson;
    match c {
      case EnqueueCall(m, t) => WellFormedEnqueue(r.st, m, t);
      case PromoteCall(member, _) => WellFormedPromote(r.st, member);
      case ReserveCall(t) => WellFormedReserve(r.st, t);
      case ReclaimCall(id, t, timeout) => WellFormedReclaim(r.st, id, t, timeout);
      case CompleteCall(slot, outcome, t) =>
        var copy := r.flight[slot];
        match Decide(copy, outcome) {
          case DoAck => WellFormedAck(r.st, copy.id, SUCCESS_JSON);
          case DoRetry(reason) => WellFormedRetry(r.st, RetriedCopy(copy, reason, t), copy.id, reason);
          case DoFail(reason) => WellFormedFail(r.st, copy.id, reason);
        }
      case ReviveCall(id) => WellFormedRevive(r.st, id);
      case _ =>
    }
  }

  /** No script drops a document as malformed: each refuses only for the reason it is meant to. */
  ghost predicate NothingDropped(st: Store) {
    && (forall t :: ReserveScript(st, t).1.None? <==> st.pending == [])
    && (forall j :: j in st.delayed ==> PromoteScript(st, j).1 == 1)
    && (forall id :: id in st.running ==> LeaseShaped(st.running[id]))
    && (forall id, t, timeout :: ReclaimScript(st, id, t, timeout).1 == 0
          <==> id !in st.running || t - st.running[id].fields["reserved_at_ms"].n <= timeout)
    && (forall id, reason :: |FailScript(st, id, reason).dead| == |st.dead| <==> id !in st.running)
  }

  lemma WellFormedDropsNothing(st: Store)
    requires WellFormed(st)
    ensures NothingDropped(st)
  {
  }

  /**
   When only this code writes the store, the branches for malformed documents are
   unreachable: in every run of the store and its workers, of any messages and any
   values.
   */
  lemma {:induction false} MalformedBranchesUnreachable(r: RedisSystem, calls: seq<Call>)
    requires WellFormed(r.st) && CallRun(r, calls)
    ensures WellFormed(CallExec(r, calls).st) && NothingDropped(CallExec(r, calls).st)
    decreases calls
  {
    if calls == [] {
      WellFormedDropsNothing(r.st);
    } else {
      hide WellFormed, NothingDropped, CallNext;
      WellFormedCall(r, calls[0]);
      MalformedBranchesUnreachable(CallNext(r, calls[0]), calls[1..]);
    }
  }

  // ----------------------------------------------------------- stored results

  /** Every stored result reads success, with an empty object and no error. */
  predicate ResultsReadSuccess(st: Store) {
    forall id :: id in st.results ==> ResultFromJson(st.results[id]) == Ok(TaskResult(true, Obj(map[]), ""))
  }

  lemma SuccessReadsBack()
    ensures ResultFromJson(SUCCESS_JSON) == Ok(TaskResult(true, Obj(map[]), ""))
  {
    ResultRoundTrip(SUCCESS);
  }

  lemma ResultsCall(r: RedisSystem, c: Call)
    requires ResultsReadSuccess(r.st) && CallEnabled(r, c)
    ensures ResultsReadSuccess(CallNext(r, c).st)
  {
    hide ToJson, FromJson, NextDueMember, ResultFromJson, FirstEntry, ComputeRetryDelayMs;
    SuccessReadsBack();
  }

  /** In every run of the store and its workers, whatever result is stored reads as success. */
  lemma {:induction false} StoredResultsReadSuccess(r: RedisSystem, calls: seq<Call>)
    requires ResultsReadSuccess(r.st) && CallRun(r, calls)
    ensures ResultsReadSuccess(CallExec(r, calls).st)
    decreases calls
  {
    hide ResultsReadSuccess, CallNext;
    if calls == [] {
    } else {
      ResultsCall(r, calls[0]);
      StoredResultsReadSuccess(CallNext(r, calls[0]), calls[1..]);
    }
  }
}
