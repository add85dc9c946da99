/**
 The JSON store against the typed broker: each document carries the fields of a
 message, valid or not, and each script does to the store what the typed step does
 to the messages.
 */
module StoreRefinement {
  import opened Tasks
  import opened TaskJson
  import opened Sums
  import opened Broker
  import opened RedisStore

  predicate RepresentsPending(js: seq<Json>, ms: seq<TaskMessage>) {
    && |js| == |ms|
    && forall i :: 0 <= i < |js| ==> Carries(js[i], ms[|ms| - 1 - i])
  }

  predicate RepresentsDead(js: seq<Json>, ms: seq<TaskMessage>) {
    && |js| == |ms|
    && forall i :: 0 <= i < |js| ==> Carries(js[i], ms[i])
  }

  /** Delayed members are written by C++ only, so they are exactly the serialised messages. */
  ghost predicate RepresentsDelayed(js: map<Json, int>, ms: map<TaskMessage, int>) {
    && (forall m :: m in ms ==> Representable(m) && ToJson(m) in js && js[ToJson(m)] == ms[m])
    && (forall j :: j in js ==> exists m :: m in ms && j == ToJson(m))
  }

  /** A running document carries its reservation time as a 64-bit integer. */
  predicate LeaseFits(j: Json) {
    j.Obj? && "reserved_at_ms" in j.fields && j.fields["reserved_at_ms"].Int? && IsInt64(j.fields["reserved_at_ms"].n)
  }

  lemma SameStaleness(j: Json, m: TaskMessage, t: int, timeout: int)
    requires Carries(j, m) && LeaseFits(j)
    ensures StaleEntry(j, t, timeout) <==> Stale(m, t, timeout)
  {
  }

  predicate RepresentsRunning(js: map<string, Json>, ms: map<string, TaskMessage>) {
    && js.Keys == ms.Keys
    && forall id :: id in js ==> Carries(js[id], ms[id]) && LeaseFits(js[id])
  }

  predicate RepresentsStatus(js: map<string, string>, ms: map<string, TaskStatus>) {
    && js.Keys == ms.Keys
    && forall id :: id in js ==> js[id] == StatusToString(ms[id])
  }

  /** Each stored result parses to the typed one. */
  predicate RepresentsResults(js: map<string, Json>, rs: map<string, TaskResult>) {
    && js.Keys == rs.Keys
    && forall id :: id in js ==> ResultFromJson(js[id]) == Ok(rs[id])
  }

  ghost predicate Represents(st: Store, b: BrokerState) {
    && RepresentsPending(st.pending, b.pending)
    && RepresentsDelayed(st.delayed, b.delayed)
    && RepresentsRunning(st.running, b.running)
    && RepresentsDead(st.dead, b.dead)
    && RepresentsStatus(st.status, b.status)
    && RepresentsResults(st.results, b.results)
    && st.failures == b.failures
  }

  // -------------------------------------------------------------- containers

  lemma PushPending(js: seq<Json>, ms: seq<TaskMessage>, j: Json, m: TaskMessage)
    requires RepresentsPending(js, ms) && Carries(j, m)
    ensures RepresentsPending([j] + js, ms + [m])
  {
    hide Carries, ToJson, FromJson, UuidShaped;
  }

  lemma AddDelayed(js: map<Json, int>, ms: map<TaskMessage, int>, m: TaskMessage, score: int)
    requires RepresentsDelayed(js, ms) && Representable(m)
    ensures RepresentsDelayed(js[ToJson(m) := score], ms[m := score])
  {
    hide Carries, ToJson, FromJson, UuidShaped;
    forall x | x in ms && x != m
      ensures ToJson(x) != ToJson(m)
    {
      ToJsonCarries(x);
      ToJsonCarries(m);
      if ToJson(x) == ToJson(m) {
        CarriesOne(ToJson(m), x, m);
      }
    }
  }

  lemma DropDelayed(js: map<Json, int>, ms: map<TaskMessage, int>, m: TaskMessage)
    requires RepresentsDelayed(js, ms) && m in ms
    ensures RepresentsDelayed(js - {ToJson(m)}, ms - {m})
  {
    hide Carries, ToJson, FromJson, UuidShaped;
    forall x | x in ms && x != m
      ensures ToJson(x) != ToJson(m)
    {
      ToJsonCarries(x);
      ToJsonCarries(m);
      if ToJson(x) == ToJson(m) {
        CarriesOne(ToJson(m), x, m);
      }
    }
  }

  lemma SetStatus(js: map<string, string>, ms: map<string, TaskStatus>, id: string, status: TaskStatus)
    requires RepresentsStatus(js, ms)
    ensures RepresentsStatus(js[id := StatusToString(status)], ms[id := status])
  {
  }

  lemma DropRunning(js: map<string, Json>, ms: map<string, TaskMessage>, id: string)
    requires RepresentsRunning(js, ms)
    ensures RepresentsRunning(js - {id}, ms - {id})
  {
  }

  lemma SameRunning(js: map<string, Json>, ms: map<string, TaskMessage>, id: string)
    requires RepresentsRunning(js, ms)
    ensures id in js <==> id in ms
    ensures id in js ==> Carries(js[id], ms[id]) && LeaseFits(js[id])
  {
  }

  lemma SetRunning(js: map<string, Json>, ms: map<string, TaskMessage>, id: string, j: Json, m: TaskMessage)
    requires RepresentsRunning(js, ms) && Carries(j, m) && LeaseFits(j)
    ensures RepresentsRunning(js[id := j], ms[id := m])
  {
    hide Carries;
  }

  lemma PushDead(js: seq<Json>, ms: seq<TaskMessage>, j: Json, m: TaskMessage)
    requires RepresentsDead(js, ms) && Carries(j, m)
    ensures RepresentsDead([j] + js, [m] + ms)
  {
    hide Carries;
  }

  lemma DropDead(js: seq<Json>, ms: seq<TaskMessage>, k: nat)
    requires RepresentsDead(js, ms) && k < |ms|
    ensures |js| == |ms| && Carries(js[k], ms[k])
    ensures RepresentsDead(Without(js, k), Without(ms, k))
  {
    hide Carries;
  }

  lemma PopPending(js: seq<Json>, ms: seq<TaskMessage>)
    requires RepresentsPending(js, ms) && ms != []
    ensures |js| == |ms| && Carries(js[|js| - 1], ms[0])
    ensures RepresentsPending(js[..|js| - 1], ms[1..])
  {
    hide Carries;
  }

  /** Both dead-letter lists have their first entry for an id at the same position. */
  lemma {:induction false} SameFirst(js: seq<Json>, ms: seq<TaskMessage>, id: string)
    requires RepresentsDead(js, ms)
    ensures |js| == |ms| && FirstEntry(js, id) == FirstWithId(ms, id)
  {
    if js == [] {
    } else {
      StoredId(js[0], ms[0]);
      assert RepresentsDead(js[1..], ms[1..]);
      SameFirst(js[1..], ms[1..], id);
    }
  }

  // ------------------------------------------------------------------- steps

  lemma EnqueueRefines(st: Store, b: BrokerState, m: TaskMessage, t: int)
    requires Represents(st, b) && Representable(m)
    ensures Represents(EnqueueTransaction(st, m, t), Enqueue(b, m, t))
  {
    hide Carries, ToJson, FromJson, UuidShaped;
    var copy := EnqueuedCopy(m, t);
    ToJsonCarries(copy);
    SetStatus(st.status, b.status, m.id, Pending);
    if EnqueuesDelayed(m, t) {
      AddDelayed(st.delayed, b.delayed, copy, m.runAtMs.value);
    } else {
      PushPending(st.pending, b.pending, ToJson(copy), copy);
    }
  }

  lemma PromoteRefines(st: Store, b: BrokerState, m: TaskMessage, t: int)
    requires Represents(st, b) && NextDue(b, m, t)
    ensures NextDueMember(st, ToJson(m), t)
    ensures PromoteScript(st, ToJson(m)).1 == 1
    ensures Represents(PromoteScript(st, ToJson(m)).0, Promote(b, m))
  {
    hide Carries, ToJson, FromJson, UuidShaped;
    var j := ToJson(m);
    ToJsonCarries(m);
    StoredId(j, m);
    PromoteCarries(j, m);
    SetStatus(st.status, b.status, m.id, Pending);
    DropDelayed(st.delayed, b.delayed, m);
    PushPending(st.pending, b.pending, Obj(PromoteEdit(j.fields)), PromotedCopy(m));
  }

  /** Whichever due member the script picks, it is one the protocol may pick. */
  lemma PickedMemberIsDue(st: Store, b: BrokerState, j: Json, t: int) returns (m: TaskMessage)
    requires Represents(st, b) && NextDueMember(st, j, t)
    ensures j == ToJson(m) && NextDue(b, m, t)
  {
    m :| m in b.delayed && j == ToJson(m);
  }

  lemma ReserveSetsLease(j: Json, t: int)
    requires HasStringId(j) && IsInt64(t)
    ensures LeaseFits(Obj(ReserveEdit(j.fields, t)))
  {
  }

  lemma ReserveRefines(st: Store, b: BrokerState, t: int)
    requires Represents(st, b) && IsInt64(t)
    ensures Represents(ReserveScript(st, t).0, Reserve(b, t))
    ensures ReserveScript(st, t).1.None? <==> b.pending == []
    ensures b.pending != [] ==>
              var reply := FromJson(ReserveScript(st, t).1.value);
              if Parseable(b.pending[0]) then reply == Ok(ReservedCopy(b.pending[0], t)) else reply.Err?
  {
    hide Carries, RepresentsDelayed, RepresentsRunning, RepresentsDead, RepresentsStatus,
      ReserveEdit, ToJson, FromJson, UuidShaped, ValidPolicy;
    if b.pending != [] {
      var j, m := st.pending[|st.pending| - 1], b.pending[0];
      PopPending(st.pending, b.pending);
      StoredId(j, m);
      var reply := Obj(ReserveEdit(j.fields, t));
      ReserveCarries(j, m, t);
      ReserveSetsLease(j, t);
      CarriedParsesIffValid(reply, ReservedCopy(m, t));
      SetRunning(st.running, b.running, m.id, reply, ReservedCopy(m, t));
      SetStatus(st.status, b.status, m.id, Running);
    }
  }

  lemma ReclaimRefines(st: Store, b: BrokerState, id: string, t: int, timeout: int)
    requires Represents(st, b)
    ensures Represents(ReclaimScript(st, id, t, timeout).0, Reclaim(b, id, t, timeout))
    ensures ReclaimScript(st, id, t, timeout).1 == if Reclaims(b, id, t, timeout) then 1 else 0
  {
    hide Carries, ToJson, FromJson, UuidShaped;
    if id in b.running {
      var j, m := st.running[id], b.running[id];
      StoredId(j, m);
      SameStaleness(j, m, t, timeout);
      ReclaimCarries(j, m);
      SetStatus(st.status, b.status, id, Pending);
      DropRunning(st.running, b.running, id);
      PushPending(st.pending, b.pending, Obj(ReclaimEdit(j.fields)), ReclaimedCopy(m));
    }
  }

  lemma RetryRefines(st: Store, b: BrokerState, task: TaskMessage, reason: string, t: int)
    requires Represents(st, b)
    requires Representable(RetriedCopy(task, reason, t))
    ensures var r := RetriedCopy(task, reason, t);
            Represents(RetryScript(st, task.id, ToJson(r), r.runAtMs.value, reason), Retry(b, task, reason, t))
  {
    hide RepresentsPending, RepresentsDelayed, RepresentsRunning, RepresentsDead, RepresentsStatus,
      ToJson, Representable;
    var r := RetriedCopy(task, reason, t);
    AddDelayed(st.delayed, b.delayed, r, r.runAtMs.value);
    SetStatus(st.status, b.status, task.id, Retrying);
    DropRunning(st.running, b.running, task.id);
  }

  lemma FailRefines(st: Store, b: BrokerState, id: string, reason: string)
    requires Represents(st, b)
    ensures Represents(FailScript(st, id, reason), Broker.Fail(b, id, reason))
  {
    hide Carries, RepresentsPending, RepresentsDelayed, RepresentsRunning, RepresentsDead, RepresentsStatus, FailEdit;
    SetStatus(st.status, b.status, id, TaskStatus.Dead);
    DropRunning(st.running, b.running, id);
    SameRunning(st.running, b.running, id);
    if id in b.running {
      var j, m := st.running[id], b.running[id];
      StoredId(j, m);
      FailCarries(j, m, reason);
      PushDead(st.dead, b.dead, Obj(FailEdit(j.fields, reason)), DeadCopy(m, reason));
    }
  }

  /** What is stored on success. */
  const SUCCESS_JSON := ResultToJson(SUCCESS)

  lemma AckRefines(st: Store, b: BrokerState, id: string)
    requires Represents(st, b)
    ensures Represents(AckScript(st, id, SUCCESS_JSON), Ack(b, id))
  {
    hide Carries, RepresentsPending, RepresentsDelayed, RepresentsRunning, RepresentsDead, RepresentsStatus;
    SetStatus(st.status, b.status, id, Succeeded);
    DropRunning(st.running, b.running, id);
    ResultRoundTrip(SUCCESS);
  }

  lemma ReviveRefines(st: Store, b: BrokerState, id: string)
    requires Represents(st, b)
    ensures Represents(ReviveScript(st, id).0, Revive(b, id))
    ensures ReviveScript(st, id).1 == if Revives(b, id) then 1 else 0
  {
    hide Carries, RepresentsPending, RepresentsDelayed, RepresentsRunning, RepresentsDead, RepresentsStatus,
      ReviveEdit, FirstEntry, FirstWithId;
    SameFirst(st.dead, b.dead, id);
    var k := FirstWithId(b.dead, id);
    if k < |b.dead| {
      DropDead(st.dead, b.dead, k);
      StoredId(st.dead[k], b.dead[k]);
      ReviveCarries(st.dead[k], b.dead[k]);
      SetStatus(st.status, b.status, id, Pending);
      PushPending(st.pending, b.pending, Obj(ReviveEdit(st.dead[k].fields)), RevivedCopy(b.dead[k]));
    }
  }
}
