/**
 The values that travel through the queue: JSON documents, task messages, their
 status and retry policy, and the result type every parser returns.
 */
module Tasks {

  datatype Option<+T> = None | Some(value: T)

  /** The outcome of a parser: a value, or the error text it reports. */
  datatype ParseResult<+T> = Ok(value: T) | Err(error: string) {
    predicate IsFailure() {
      Err?
    }

    function PropagateFailure<U>(): ParseResult<U>
      requires Err?
    {
      Err(error)
    }

    function Extract(): T
      requires Ok?
    {
      value
    }
  }

  /** A JSON document. Integers and other numbers are kept apart, as the parser does. */
  datatype Json =
    | Null
    | Bool(b: bool)
    | Int(n: int)
    | Num(r: real)
    | Str(s: string)
    | Arr(items: seq<Json>)
    | Obj(fields: map<string, Json>)

  datatype TaskStatus = Pending | Running | Succeeded | Failed | Retrying | Dead

  datatype RetryPolicy = RetryPolicy(maxRetries: int, baseDelayMs: int, multiplier: real)

  datatype TaskMessage = TaskMessage(
    id: string,
    name: string,
    payload: Json,
    status: TaskStatus,
    retryCount: int,
    policy: RetryPolicy,
    createdAtMs: int,
    runAtMs: Option<int>,
    reservedAtMs: Option<int>,
    lastError: string)

  datatype TaskResult = TaskResult(success: bool, payload: Json, errorMessage: string)

  /** What a worker reports for a task that succeeded. */
  const SUCCESS := TaskResult(true, Obj(map[]), "")

  predicate ValidPolicy(p: RetryPolicy) {
    p.maxRetries >= 0 && p.baseDelayMs >= 0 && p.multiplier >= 0.0
  }

  predicate IsHexDigit(c: char) {
    '0' <= c <= '9' || 'a' <= c <= 'f' || 'A' <= c <= 'F'
  }

  /** The positions of the four dashes of a UUID. */
  predicate IsDashPosition(i: int) {
    i == 8 || i == 13 || i == 18 || i == 23
  }

  predicate UuidShaped(id: string) {
    && |id| == 36
    && forall i :: 0 <= i < 36 ==> if IsDashPosition(i) then id[i] == '-' else IsHexDigit(id[i])
  }

  /** The early-exit scan over the characters of a task id. */
  method IsValidUuidFormat(value: string) returns (ok: bool)
    ensures ok <==> UuidShaped(value)
  {
    if |value| != 36 {
      return false;
    }
    for i := 0 to |value|
      invariant forall k :: 0 <= k < i ==> if IsDashPosition(k) then value[k] == '-' else IsHexDigit(value[k])
    {
      if IsDashPosition(i) {
        if value[i] != '-' {
          return false;
        }
        continue;
      }
      if !IsHexDigit(value[i]) {
        return false;
      }
    }
    return true;
  }

  /** The messages that the worker can read back after a reserve. */
  predicate Parseable(m: TaskMessage) {
    UuidShaped(m.id) && ValidPolicy(m.policy)
  }

  predicate ShouldRetry(m: TaskMessage) {
    m.retryCount < m.policy.maxRetries
  }
}
