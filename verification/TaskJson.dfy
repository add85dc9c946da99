/**
 The wire format of task messages, retry policies and task results, and the
 field edits the Lua scripts make on stored messages.
 */
module TaskJson {
  import opened Tasks

  const SCHEMA_VERSION := 1

  // --------------------------------------------------------- machine integers

  const TWO_32 := 0x1_0000_0000
  const TWO_64 := 0x1_0000_0000_0000_0000

  predicate IsInt32(n: int) {
    -0x8000_0000 <= n < 0x8000_0000
  }

  predicate IsInt64(n: int) {
    -0x8000_0000_0000_0000 <= n < 0x8000_0000_0000_0000
  }

  /** Reading a JSON integer into a narrower C++ integer keeps its low bits. */
  function ToInt32(n: int): (r: int)
    ensures IsInt32(r) && (n - r) % TWO_32 == 0 && (IsInt32(n) ==> r == n)
  {
    (n + 0x8000_0000) % TWO_32 - 0x8000_0000
  }

  function ToInt64(n: int): (r: int)
    ensures IsInt64(r) && (n - r) % TWO_64 == 0 && (IsInt64(n) ==> r == n)
  {
    (n + 0x8000_0000_0000_0000) % TWO_64 - 0x8000_0000_0000_0000
  }

  // ------------------------------------------------------------- status text

  function StatusToString(status: TaskStatus): string {
    match status
    case Pending => "pending"
    case Running => "running"
    case Succeeded => "succeeded"
    case Failed => "failed"
    case Retrying => "retrying"
    case Dead => "dead"
  }

  function StatusFromString(value: string): ParseResult<TaskStatus> {
    if value == "pending" then Ok(Pending)
    else if value == "running" then Ok(Running)
    else if value == "succeeded" then Ok(Succeeded)
    else if value == "failed" then Ok(Failed)
    else if value == "retrying" then Ok(Retrying)
    else if value == "dead" then Ok(Dead)
    else Err("unknown task status: " + value)
  }

  lemma StatusRoundTrip(status: TaskStatus)
    ensures StatusFromString(StatusToString(status)) == Ok(status)
  {
    assert "pending"[0] == 'p' && "running"[0] == 'r' && "retrying"[1] == 'e' && "succeeded"[0] == 's';
  }

  // ---------------------------------------------------------- field parsers

  function ParseInt64Field(fields: map<string, Json>, key: string): ParseResult<int> {
    if key !in fields then Err("missing required field: " + key)
    else if !fields[key].Int? then Err("field must be int: " + key)
    else Ok(ToInt64(fields[key].n))
  }

  function ParseIntField(fields: map<string, Json>, key: string): ParseResult<int> {
    if key !in fields then Err("missing required field: " + key)
    else if !fields[key].Int? then Err("field must be int: " + key)
    else Ok(ToInt32(fields[key].n))
  }

  function ParseDoubleField(fields: map<string, Json>, key: string): ParseResult<real> {
    if key !in fields then Err("missing required field: " + key)
    else match fields[key]
         case Int(n) => Ok(n as real)
         case Num(r) => Ok(r)
         case _ => Err("field must be number: " + key)
  }

  function ParseStringField(fields: map<string, Json>, key: string): ParseResult<string> {
    if key !in fields then Err("missing required field: " + key)
    else if !fields[key].Str? then Err("field must be string: " + key)
    else Ok(fields[key].s)
  }

  function ParseOptionalInt64(fields: map<string, Json>, key: string): ParseResult<Option<int>> {
    if key !in fields then Ok(None)
    else if !fields[key].Int? then Err(key + " must be an integer")
    else Ok(Some(ToInt64(fields[key].n)))
  }

  function ParseOptionalString(fields: map<string, Json>, key: string): ParseResult<string> {
    if key !in fields then Ok("") else ParseStringField(fields, key)
  }

  /** A message without a schema version is read as the current version. */
  function ParseSchemaVersion(fields: map<string, Json>): ParseResult<int> {
    if "schema_version" !in fields then Ok(SCHEMA_VERSION)
    else if !fields["schema_version"].Int? then Err("schema_version must be an integer")
    else if ToInt32(fields["schema_version"].n) != SCHEMA_VERSION then Err("unsupported task schema_version")
    else Ok(SCHEMA_VERSION)
  }

  function ParseTaskId(value: string): ParseResult<string> {
    if value == "" then Err("task id must not be empty")
    else if !UuidShaped(value) then Err("task id must be a UUID string")
    else Ok(value)
  }

  // ------------------------------------------------------------ retry policy

  function PolicyToJson(p: RetryPolicy): Json {
    Obj(map[
      "max_retries" := Int(p.maxRetries),
      "base_delay_ms" := Int(p.baseDelayMs),
      "multiplier" := Num(p.multiplier)])
  }

  /** The fields of a policy, of whatever values. */
  function PolicyFields(j: Json): ParseResult<RetryPolicy> {
    if !j.Obj? then Err("retry_policy must be an object")
    else
      var maxRetries :- ParseIntField(j.fields, "max_retries");
      var baseDelayMs :- ParseInt64Field(j.fields, "base_delay_ms");
      var multiplier :- ParseDoubleField(j.fields, "multiplier");
      Ok(RetryPolicy(maxRetries, baseDelayMs, multiplier))
  }

  function PolicyFromJson(j: Json): ParseResult<RetryPolicy> {
    var p :- PolicyFields(j);
    if p.maxRetries < 0 then Err("retry max_retries must be >= 0")
    else if p.baseDelayMs < 0 then Err("retry base_delay_ms must be >= 0")
    else if p.multiplier < 0.0 then Err("retry multiplier must be >= 0")
    else Ok(p)
  }

  // ---------------------------------------------------------------- messages

  const REQUIRED := {
    "schema_version", "id", "name", "payload", "status", "retry_count", "retry_policy", "created_at_ms"
  }

  function RequiredFields(m: TaskMessage): map<string, Json> {
    map[
      "schema_version" := Int(SCHEMA_VERSION),
      "id" := Str(m.id),
      "name" := Str(m.name),
      "payload" := m.payload,
      "status" := Str(StatusToString(m.status)),
      "retry_count" := Int(m.retryCount),
      "retry_policy" := PolicyToJson(m.policy),
      "created_at_ms" := Int(m.createdAtMs)]
  }

  function ToJson(m: TaskMessage): Json {
    var required := RequiredFields(m);
    var withRunAt := if m.runAtMs.Some? then required["run_at_ms" := Int(m.runAtMs.value)] else required;
    var withError := if m.lastError != "" then withRunAt["last_error" := Str(m.lastError)] else withRunAt;
    Obj(if m.reservedAtMs.Some? then withError["reserved_at_ms" := Int(m.reservedAtMs.value)] else withError)
  }

  function FromJson(j: Json): ParseResult<TaskMessage> {
    if !j.Obj? then Err("task message must be an object")
    else
      var f := j.fields;
      var version :- ParseSchemaVersion(f);
      var idString :- ParseStringField(f, "id");
      var id :- ParseTaskId(idString);
      var name :- ParseStringField(f, "name");
      if "payload" !in f then Err("missing required field: payload")
      else
        var statusString :- ParseStringField(f, "status");
        var status :- StatusFromString(statusString);
        var retryCount :- ParseIntField(f, "retry_count");
        if "retry_policy" !in f then Err("missing required field: retry_policy")
        else
          var policy :- PolicyFromJson(f["retry_policy"]);
          var createdAtMs :- ParseInt64Field(f, "created_at_ms");
          var runAtMs :- ParseOptionalInt64(f, "run_at_ms");
          var lastError :- ParseOptionalString(f, "last_error");
          var reservedAtMs :- ParseOptionalInt64(f, "reserved_at_ms");
          Ok(TaskMessage(
            id, name, f["payload"], status, retryCount, policy, createdAtMs, runAtMs, reservedAtMs, lastError))
  }

  // ----------------------------------------------------------------- results

  function ResultToJson(r: TaskResult): Json {
    Obj(map["success" := Bool(r.success), "payload" := r.payload, "error_message" := Str(r.errorMessage)])
  }

  function ResultFromJson(j: Json): ParseResult<TaskResult> {
    if !j.Obj? then Err("task result must be an object")
    else if "success" !in j.fields then Err("missing required field: success")
    else if !j.fields["success"].Bool? then Err("success must be a boolean")
    else if "payload" !in j.fields then Err("missing required field: payload")
    else
      var errorMessage :- ParseStringField(j.fields, "error_message");
      Ok(TaskResult(j.fields["success"].b, j.fields["payload"], errorMessage))
  }

  lemma ResultRoundTrip(r: TaskResult)
    ensures ResultFromJson(ResultToJson(r)) == Ok(r)
  {
  }

  // -------------------------------------------------------------- round trip

  /** The values a message can have in memory: its integers fit their C++ types. */
  predicate Representable(m: TaskMessage) {
    && IsInt32(m.retryCount)
    && IsInt32(m.policy.maxRetries)
    && IsInt64(m.policy.baseDelayMs)
    && IsInt64(m.createdAtMs)
    && (m.runAtMs.Some? ==> IsInt64(m.runAtMs.value))
    && (m.reservedAtMs.Some? ==> IsInt64(m.reservedAtMs.value))
  }

  lemma PolicyFieldsRoundTrip(p: RetryPolicy)
    requires IsInt32(p.maxRetries) && IsInt64(p.baseDelayMs)
    ensures PolicyFields(PolicyToJson(p)) == Ok(p)
  {
    assert "max_retries"[0] == 'm' && "base_delay_ms"[0] == 'b';
  }

  lemma PolicyRoundTrip(p: RetryPolicy)
    requires IsInt32(p.maxRetries) && IsInt64(p.baseDelayMs)
    ensures PolicyFromJson(PolicyToJson(p)).Ok? <==> ValidPolicy(p)
    ensures ValidPolicy(p) ==> PolicyFromJson(PolicyToJson(p)) == Ok(p)
  {
    PolicyFieldsRoundTrip(p);
  }

  lemma RequiredFieldsOf(m: TaskMessage)
    ensures var f := RequiredFields(m);
            && f.Keys == REQUIRED
            && f["schema_version"] == Int(SCHEMA_VERSION)
            && f["id"] == Str(m.id)
            && f["name"] == Str(m.name)
            && f["payload"] == m.payload
            && f["status"] == Str(StatusToString(m.status))
            && f["retry_count"] == Int(m.retryCount)
            && f["retry_policy"] == PolicyToJson(m.policy)
            && f["created_at_ms"] == Int(m.createdAtMs)
  {
    hide StatusToString, PolicyToJson;
    assert "retry_count"[6] == 'c' && "retry_policy"[6] == 'p';
  }

  lemma OptionalFieldsApart()
    ensures "run_at_ms" !in REQUIRED && "last_error" !in REQUIRED && "reserved_at_ms" !in REQUIRED
    ensures "run_at_ms" != "last_error" && "run_at_ms" != "reserved_at_ms" && "last_error" != "reserved_at_ms"
  {
    assert "reserved_at_ms"[2] == 's' && "schema_version"[0] == 's' && "last_error"[0] == 'l';
    assert "run_at_ms"[0] == 'r' && |"run_at_ms"| == 9;
  }

  /** What each field of a serialised message holds. */
  lemma FieldsOf(m: TaskMessage)
    ensures var j := ToJson(m);
            && j.Obj?
            && "schema_version" in j.fields && j.fields["schema_version"] == Int(SCHEMA_VERSION)
            && "id" in j.fields && j.fields["id"] == Str(m.id)
            && "name" in j.fields && j.fields["name"] == Str(m.name)
            && "payload" in j.fields && j.fields["payload"] == m.payload
            && "status" in j.fields && j.fields["status"] == Str(StatusToString(m.status))
            && "retry_count" in j.fields && j.fields["retry_count"] == Int(m.retryCount)
            && "retry_policy" in j.fields && j.fields["retry_policy"] == PolicyToJson(m.policy)
            && "created_at_ms" in j.fields && j.fields["created_at_ms"] == Int(m.createdAtMs)
            && ("run_at_ms" in j.fields <==> m.runAtMs.Some?)
            && (m.runAtMs.Some? ==> j.fields["run_at_ms"] == Int(m.runAtMs.value))
            && ("last_error" in j.fields <==> m.lastError != "")
            && (m.lastError != "" ==> j.fields["last_error"] == Str(m.lastError))
            && ("reserved_at_ms" in j.fields <==> m.reservedAtMs.Some?)
            && (m.reservedAtMs.Some? ==> j.fields["reserved_at_ms"] == Int(m.reservedAtMs.value))
  {
    hide RequiredFields, StatusToString, PolicyToJson;
    RequiredFieldsOf(m);
    OptionalFieldsApart();
    assert "id" in REQUIRED && "name" in REQUIRED && "payload" in REQUIRED && "status" in REQUIRED;
  }

  lemma StatusTextUnique(value: string, status: TaskStatus)
    ensures StatusFromString(value) == Ok(status) <==> value == StatusToString(status)
  {
    StatusRoundTrip(status);
  }

  /** The document's fields are, one by one, those of the message, valid or not. */
  predicate Carries(j: Json, m: TaskMessage) {
    && j.Obj?
    && ParseSchemaVersion(j.fields).Ok?
    && ParseStringField(j.fields, "id") == Ok(m.id)
    && ParseStringField(j.fields, "name") == Ok(m.name)
    && "payload" in j.fields && j.fields["payload"] == m.payload
    && ParseStringField(j.fields, "status") == Ok(StatusToString(m.status))
    && ParseIntField(j.fields, "retry_count") == Ok(m.retryCount)
    && "retry_policy" in j.fields && PolicyFields(j.fields["retry_policy"]) == Ok(m.policy)
    && ParseInt64Field(j.fields, "created_at_ms") == Ok(m.createdAtMs)
    && ParseOptionalInt64(j.fields, "run_at_ms") == Ok(m.runAtMs)
    && ParseOptionalString(j.fields, "last_error") == Ok(m.lastError)
    && ParseOptionalInt64(j.fields, "reserved_at_ms") == Ok(m.reservedAtMs)
  }

  /** A document carries at most one message. */
  lemma CarriesOne(j: Json, m: TaskMessage, m': TaskMessage)
    requires Carries(j, m) && Carries(j, m')
    ensures m == m'
  {
    StatusTextUnique(j.fields["status"].s, m.status);
    StatusTextUnique(j.fields["status"].s, m'.status);
  }

  lemma ParsedId(value: string, id: string)
    ensures ParseTaskId(value) == Ok(id) <==> value == id && UuidShaped(id)
  {
  }

  /** Parsing succeeds exactly with the message that the fields carry, if it is valid. */
  lemma ParsesIffCarriesValid(j: Json, m: TaskMessage)
    ensures FromJson(j) == Ok(m) <==> Carries(j, m) && Parseable(m)
  {
    hide UuidShaped, ParseTaskId, StatusFromString, StatusToString;
    if j.Obj? && "status" in j.fields && j.fields["status"].Str? {
      StatusTextUnique(j.fields["status"].s, m.status);
    }
    if j.Obj? && "id" in j.fields && j.fields["id"].Str? {
      ParsedId(j.fields["id"].s, m.id);
    }
  }

  /** A document that carries a message parses if and only if the message is valid. */
  lemma CarriedParsesIffValid(j: Json, m: TaskMessage)
    requires Carries(j, m)
    ensures FromJson(j).Ok? <==> Parseable(m)
    ensures FromJson(j).Ok? ==> FromJson(j) == Ok(m)
  {
    hide Carries, FromJson, UuidShaped;
    ParsesIffCarriesValid(j, m);
    if FromJson(j).Ok? {
      ParsesIffCarriesValid(j, FromJson(j).value);
      CarriesOne(j, m, FromJson(j).value);
    }
  }

  lemma ToJsonCarries(m: TaskMessage)
    requires Representable(m)
    ensures Carries(ToJson(m), m)
  {
    FieldsOf(m);
    hide ToJson;
    PolicyFieldsRoundTrip(m.policy);
  }

  /**
   Serialising and parsing gives the same message back exactly when the id is
   UUID-shaped and the policy is valid; any other message is refused.
   */
  lemma RoundTrip(m: TaskMessage)
    requires Representable(m)
    ensures FromJson(ToJson(m)) == Ok(m) <==> Parseable(m)
    ensures FromJson(ToJson(m)).Ok? <==> Parseable(m)
  {
    hide ToJson, FromJson, Carries, UuidShaped;
    ToJsonCarries(m);
    CarriedParsesIffValid(ToJson(m), m);
  }

  lemma CarriedIsRepresentable(j: Json, m: TaskMessage)
    requires Carries(j, m)
    ensures Representable(m)
  {
  }

  /** Whatever is accepted is a valid message, and re-serialising it loses nothing. */
  lemma ParsedIsStable(j: Json)
    requires FromJson(j).Ok?
    ensures var m := FromJson(j).value;
            Parseable(m) && Representable(m) && FromJson(ToJson(m)) == Ok(m)
  {
    hide ToJson, FromJson, Carries, UuidShaped, Representable;
    var m := FromJson(j).value;
    ParsesIffCarriesValid(j, m);
    CarriedIsRepresentable(j, m);
    RoundTrip(m);
  }

  lemma CarriesWithoutVersion(j: Json, m: TaskMessage)
    requires Carries(j, m)
    ensures Carries(Obj(j.fields - {"schema_version"}), m)
  {
  }

  /** The schema version may be left out. */
  lemma SchemaVersionOptional(j: Json)
    requires FromJson(j).Ok?
    ensures j.Obj? && FromJson(Obj(j.fields - {"schema_version"})) == FromJson(j)
  {
    var m := FromJson(j).value;
    hide FromJson, UuidShaped;
    ParsesIffCarriesValid(j, m);
    CarriesWithoutVersion(j, m);
    ParsesIffCarriesValid(Obj(j.fields - {"schema_version"}), m);
  }

  lemma CarriesWithVersion(j: Json, m: TaskMessage, version: Json)
    requires Carries(j, m)
    ensures Carries(Obj(j.fields["schema_version" := version]), m) <==> version.Int? && version.n % TWO_32 == 1
  {
    hide StatusToString;
    if version.Int? {
      LowBits(version.n);
    }
  }

  lemma LowBits(n: int)
    ensures ToInt32(n) == 1 <==> n % TWO_32 == 1
  {
  }

  lemma VersionNeeded(j: Json)
    requires FromJson(j).Ok? && j.Obj? && "schema_version" in j.fields
    ensures j.fields["schema_version"].Int? && j.fields["schema_version"].n % TWO_32 == 1
  {
    if j.fields["schema_version"].Int? {
      LowBits(j.fields["schema_version"].n);
    }
  }

  /**
   Of an accepted document with another schema version put in, exactly those are
   accepted whose version is an integer that reads as 1 in 32 bits; version 2 is
   refused, and so is a version that is no integer.
   */
  lemma VersionOneOnly(j: Json, version: Json)
    requires FromJson(j).Ok?
    ensures j.Obj?
    ensures FromJson(Obj(j.fields["schema_version" := version])).Ok? <==> version.Int? && version.n % TWO_32 == 1
    ensures FromJson(Obj(j.fields["schema_version" := version])).Ok? ==>
              FromJson(Obj(j.fields["schema_version" := version])) == FromJson(j)
  {
    hide FromJson, UuidShaped, ValidPolicy;
    var m := FromJson(j).value;
    ParsesIffCarriesValid(j, m);
    assert j.Obj?;
    var j' := Obj(j.fields["schema_version" := version]);
    CarriesWithVersion(j, m, version);
    ParsesIffCarriesValid(j', m);
    if FromJson(j').Ok? {
      ParsesIffCarriesValid(j', FromJson(j').value);
      VersionNeeded(j');
    }
  }

  /** A multiplier written as an integer is read as that number, and refused if negative. */
  lemma IntegerMultiplier(fields: map<string, Json>, n: int)
    requires PolicyFromJson(Obj(fields)).Ok?
    ensures PolicyFromJson(Obj(fields["multiplier" := Int(n)])).Ok? <==> n >= 0
    ensures n >= 0 ==> PolicyFromJson(Obj(fields["multiplier" := Int(n)]))
                       == Ok(PolicyFromJson(Obj(fields)).value.(multiplier := n as real))
  {
    assert "max_retries"[0] == 'm' && "multiplier"[1] == 'u' && "base_delay_ms"[0] == 'b';
  }

  // ------------------------------------------------- acceptance in raw fields

  predicate IntAt(f: map<string, Json>, key: string) {
    key in f && f[key].Int?
  }

  predicate StrAt(f: map<string, Json>, key: string) {
    key in f && f[key].Str?
  }

  /** A policy object has two integers and a number, none of them negative as read. */
  predicate WellTypedPolicy(j: Json) {
    && j.Obj? && IntAt(j.fields, "max_retries") && IntAt(j.fields, "base_delay_ms")
    && ToInt32(j.fields["max_retries"].n) >= 0 && ToInt64(j.fields["base_delay_ms"].n) >= 0
    && "multiplier" in j.fields
    && match j.fields["multiplier"]
       case Int(n) => n >= 0
       case Num(r) => r >= 0.0
       case _ => false
  }

  /** What a document must be to be read as a message. */
  predicate WellTyped(j: Json) {
    && j.Obj?
    && ("schema_version" in j.fields ==>
          j.fields["schema_version"].Int? && ToInt32(j.fields["schema_version"].n) == 1)
    && StrAt(j.fields, "id") && UuidShaped(j.fields["id"].s)
    && StrAt(j.fields, "name") && "payload" in j.fields
    && StrAt(j.fields, "status")
    && j.fields["status"].s in {"pending", "running", "succeeded", "failed", "retrying", "dead"}
    && IntAt(j.fields, "retry_count")
    && "retry_policy" in j.fields && WellTypedPolicy(j.fields["retry_policy"])
    && IntAt(j.fields, "created_at_ms")
    && ("run_at_ms" in j.fields ==> j.fields["run_at_ms"].Int?)
    && ("last_error" in j.fields ==> j.fields["last_error"].Str?)
    && ("reserved_at_ms" in j.fields ==> j.fields["reserved_at_ms"].Int?)
  }

  lemma PolicyAcceptedIff(j: Json)
    ensures PolicyFromJson(j).Ok? <==> WellTypedPolicy(j)
  {
  }

  lemma StatusAcceptedIff(value: string)
    ensures StatusFromString(value).Ok?
            <==> value in {"pending", "running", "succeeded", "failed", "retrying", "dead"}
  {
  }

  lemma IdAcceptedIff(value: string)
    ensures ParseTaskId(value).Ok? <==> UuidShaped(value)
  {
  }

  /** A document is accepted if and only if its fields are present and of their types, and the values are valid. */
  lemma AcceptedIffWellTyped(j: Json)
    ensures FromJson(j).Ok? <==> WellTyped(j)
  {
    hide PolicyFromJson, WellTypedPolicy, StatusFromString, ToInt32, ToInt64, UuidShaped, ParseTaskId;
    if j.Obj? {
      if "retry_policy" in j.fields {
        PolicyAcceptedIff(j.fields["retry_policy"]);
      }
      if StrAt(j.fields, "status") {
        StatusAcceptedIff(j.fields["status"].s);
      }
      if StrAt(j.fields, "id") {
        IdAcceptedIff(j.fields["id"].s);
      }
    }
  }

  function OptionalInt(f: map<string, Json>, key: string): Option<int> {
    if IntAt(f, key) then Some(ToInt64(f[key].n)) else None
  }

  /** And then the message is read off the fields, one by one; absent optional fields read as absent, or empty. */
  lemma ReadFromFields(j: Json)
    requires FromJson(j).Ok?
    ensures WellTyped(j)
    ensures var m, f := FromJson(j).value, j.fields;
            && m.id == f["id"].s && m.name == f["name"].s && m.payload == f["payload"]
            && StatusToString(m.status) == f["status"].s
            && m.retryCount == ToInt32(f["retry_count"].n) && m.createdAtMs == ToInt64(f["created_at_ms"].n)
            && m.policy.maxRetries == ToInt32(f["retry_policy"].fields["max_retries"].n)
            && m.policy.baseDelayMs == ToInt64(f["retry_policy"].fields["base_delay_ms"].n)
            && m.runAtMs == OptionalInt(f, "run_at_ms") && m.reservedAtMs == OptionalInt(f, "reserved_at_ms")
            && m.lastError == if "last_error" in f then f["last_error"].s else ""
  {
    hide FromJson, UuidShaped, ToInt32, ToInt64, StatusToString;
    AcceptedIffWellTyped(j);
    ParsesIffCarriesValid(j, FromJson(j).value);
  }

  // --------------------------------------------------------------- Lua edits

  predicate HasStringId(j: Json) {
    j.Obj? && "id" in j.fields && j.fields["id"].Str?
  }

  function ReserveEdit(f: map<string, Json>, t: int): map<string, Json> {
    f["status" := Str("running")]["reserved_at_ms" := Int(t)]
  }

  function PromoteEdit(f: map<string, Json>): map<string, Json> {
    (f - {"run_at_ms"})["status" := Str("pending")]
  }

  function ReclaimEdit(f: map<string, Json>): map<string, Json> {
    f["status" := Str("pending")] - {"reserved_at_ms"}
  }

  function FailEdit(f: map<string, Json>, reason: string): map<string, Json> {
    f["status" := Str("dead")]["last_error" := Str(reason)]
  }

  function ReviveEdit(f: map<string, Json>): map<string, Json> {
    f["status" := Str("pending")]["retry_count" := Int(0)] - {"last_error", "run_at_ms", "reserved_at_ms"}
  }
}
