/**
 The broker as Redis holds it: lists, hashes and a sorted set of JSON documents.
 Each Lua script is a function on the whole store, total over any content,
 malformed documents included. `pending` and `dead` are Redis lists, head first.
 */
module RedisStore {
  import opened Tasks
  import opened TaskJson
  import opened Sums
  import opened Broker

  datatype Store = Store(
    pending: seq<Json>,
    delayed: map<Json, int>,
    running: map<string, Json>,
    dead: seq<Json>,
    status: map<string, string>,
    results: map<string, Json>,
    failures: map<string, string>)

  const EMPTY_STORE := Store([], map[], map[], [], map[], map[], map[])

  // ----------------------------------------------------------------- scripts

  function Id(j: Json): string
    requires HasStringId(j)
  {
    j.fields["id"].s
  }

  /** One transaction: the message goes to the delayed set or to the head of pending. */
  function EnqueueTransaction(st: Store, m: TaskMessage, t: int): Store {
    var copy := EnqueuedCopy(m, t);
    if EnqueuesDelayed(m, t) then
      st.(delayed := st.delayed[ToJson(copy) := m.runAtMs.value], status := st.status[m.id := "pending"])
    else
      st.(pending := [ToJson(copy)] + st.pending, status := st.status[m.id := "pending"])
  }

  function ReserveScript(st: Store, t: int): (Store, Option<Json>) {
    if st.pending == [] then (st, None)
    else
      var j := st.pending[|st.pending| - 1];
      var popped := st.(pending := st.pending[..|st.pending| - 1]);
      if !HasStringId(j) then (popped, None)
      else
        var running := Obj(ReserveEdit(j.fields, t));
        (popped.(running := st.running[Id(j) := running], status := st.status[Id(j) := "running"]), Some(running))
  }

  predicate NextDueMember(st: Store, j: Json, t: int) {
    j in st.delayed && st.delayed[j] <= t && forall x :: x in st.delayed ==> st.delayed[j] <= st.delayed[x]
  }

  function PromoteScript(st: Store, j: Json): (Store, int)
    requires j in st.delayed
  {
    var removed := st.(delayed := st.delayed - {j});
    if !HasStringId(j) then (removed, 0)
    else (removed.(pending := [Obj(PromoteEdit(j.fields))] + st.pending, status := st.status[Id(j) := "pending"]), 1)
  }

  predicate StaleEntry(j: Json, t: int, timeout: int) {
    && j.Obj? && "reserved_at_ms" in j.fields && j.fields["reserved_at_ms"].Int?
    && t - j.fields["reserved_at_ms"].n > timeout
  }

  function ReclaimScript(st: Store, id: string, t: int, timeout: int): (Store, int) {
    if id !in st.running || !StaleEntry(st.running[id], t, timeout) then (st, 0)
    else (st.(running := st.running - {id},
              pending := [Obj(ReclaimEdit(st.running[id].fields))] + st.pending,
              status := st.status[id := "pending"]), 1)
  }

  function RetryScript(st: Store, id: string, delayed: Json, score: int, reason: string): Store {
    st.(running := st.running - {id},
        delayed := st.delayed[delayed := score],
        status := st.status[id := "retrying"],
        failures := st.failures[id := reason])
  }

  function FailScript(st: Store, id: string, reason: string): Store {
    st.(running := st.running - {id},
        dead := if id in st.running && st.running[id].Obj? then [Obj(FailEdit(st.running[id].fields, reason))] + st.dead
                else st.dead,
        failures := st.failures[id := reason],
        status := st.status[id := "dead"])
  }

  function AckScript(st: Store, id: string, result: Json): Store {
    st.(running := st.running - {id},
        status := st.status[id := "succeeded"],
        results := st.results[id := result],
        failures := st.failures - {id})
  }

  /** The position of the first entry whose id is the given one, or the length. */
  function FirstEntry(dead: seq<Json>, id: string): (k: nat)
    ensures k <= |dead|
    ensures k < |dead| ==> HasStringId(dead[k]) && Id(dead[k]) == id
    ensures forall i :: 0 <= i < k ==> !(HasStringId(dead[i]) && Id(dead[i]) == id)
  {
    if dead == [] || (HasStringId(dead[0]) && Id(dead[0]) == id) then 0 else 1 + FirstEntry(dead[1..], id)
  }

  function ReviveScript(st: Store, id: string): (Store, int) {
    var k := FirstEntry(st.dead, id);
    if k == |st.dead| then (st, 0)
    else (st.(dead := Without(st.dead, k),
              pending := [Obj(ReviveEdit(st.dead[k].fields))] + st.pending,
              status := st.status[id := "pending"],
              failures := st.failures - {id}), 1)
  }

  // ------------------------------------------------ edits agree with updates

  lemma StoredId(j: Json, m: TaskMessage)
    requires Carries(j, m)
    ensures HasStringId(j) && Id(j) == m.id
  {
  }

  lemma ReserveCarries(j: Json, m: TaskMessage, t: int)
    requires Carries(j, m) && IsInt64(t)
    ensures Carries(Obj(ReserveEdit(j.fields, t)), ReservedCopy(m, t))
  {
  }

  lemma PromoteCarries(j: Json, m: TaskMessage)
    requires Carries(j, m)
    ensures Carries(Obj(PromoteEdit(j.fields)), PromotedCopy(m))
  {
  }

  lemma ReclaimCarries(j: Json, m: TaskMessage)
    requires Carries(j, m)
    ensures Carries(Obj(ReclaimEdit(j.fields)), ReclaimedCopy(m))
  {
  }

  lemma FailCarries(j: Json, m: TaskMessage, reason: string)
    requires Carries(j, m)
    ensures Carries(Obj(FailEdit(j.fields, reason)), DeadCopy(m, reason))
  {
  }

  lemma ReviveCarries(j: Json, m: TaskMessage)
    requires Carries(j, m)
    ensures Carries(Obj(ReviveEdit(j.fields)), RevivedCopy(m))
  {
  }

  /** Reserving in Lua and parsing is parsing and reserving in C++; likewise below. */
  lemma ReserveCommutes(j: Json, m: TaskMessage, t: int)
    requires FromJson(j) == Ok(m) && IsInt64(t)
    ensures j.Obj? && FromJson(Obj(ReserveEdit(j.fields, t))) == Ok(ReservedCopy(m, t))
  {
    hide FromJson, UuidShaped;
    ParsesIffCarriesValid(j, m);
    ReserveCarries(j, m, t);
    ParsesIffCarriesValid(Obj(ReserveEdit(j.fields, t)), ReservedCopy(m, t));
  }

  lemma PromoteCommutes(j: Json, m: TaskMessage)
    requires FromJson(j) == Ok(m)
    ensures j.Obj? && FromJson(Obj(PromoteEdit(j.fields))) == Ok(PromotedCopy(m))
  {
    hide FromJson, UuidShaped;
    ParsesIffCarriesValid(j, m);
    PromoteCarries(j, m);
    ParsesIffCarriesValid(Obj(PromoteEdit(j.fields)), PromotedCopy(m));
  }

  lemma ReclaimCommutes(j: Json, m: TaskMessage)
    requires FromJson(j) == Ok(m)
    ensures j.Obj? && FromJson(Obj(ReclaimEdit(j.fields))) == Ok(ReclaimedCopy(m))
  {
    hide FromJson, UuidShaped;
    ParsesIffCarriesValid(j, m);
    ReclaimCarries(j, m);
    ParsesIffCarriesValid(Obj(ReclaimEdit(j.fields)), ReclaimedCopy(m));
  }

  lemma FailCommutes(j: Json, m: TaskMessage, reason: string)
    requires FromJson(j) == Ok(m)
    ensures j.Obj? && FromJson(Obj(FailEdit(j.fields, reason))) == Ok(DeadCopy(m, reason))
  {
    hide FromJson, UuidShaped;
    ParsesIffCarriesValid(j, m);
    FailCarries(j, m, reason);
    ParsesIffCarriesValid(Obj(FailEdit(j.fields, reason)), DeadCopy(m, reason));
  }

  lemma ReviveCommutes(j: Json, m: TaskMessage)
    requires FromJson(j) == Ok(m)
    ensures j.Obj? && FromJson(Obj(ReviveEdit(j.fields))) == Ok(RevivedCopy(m))
  {
    hide FromJson, UuidShaped;
    ParsesIffCarriesValid(j, m);
    ReviveCarries(j, m);
    ParsesIffCarriesValid(Obj(ReviveEdit(j.fields)), RevivedCopy(m));
  }

  /**
   Whether the worker gets the message: the reply of a reserve, which is the stored
   document after the Lua edit, parses if and only if the enqueued message was valid.
   */
  lemma ReservedParsesIffValid(m: TaskMessage, t: int)
    requires Representable(m) && IsInt64(t)
    ensures var j := ToJson(m);
            && j.Obj?
            && (FromJson(Obj(ReserveEdit(j.fields, t))).Ok? <==> Parseable(m))
            && (Parseable(m) ==> FromJson(Obj(ReserveEdit(j.fields, t))) == Ok(ReservedCopy(m, t)))
  {
    hide ToJson, FromJson, UuidShaped;
    ToJsonCarries(m);
    ReserveCarries(ToJson(m), m, t);
    CarriedParsesIffValid(Obj(ReserveEdit(ToJson(m).fields, t)), ReservedCopy(m, t));
  }
}
