# CrunchyTask: a verified model of the task queue

CrunchyTask is an at-least-once task queue. Its state lives in Redis and is moved
by small atomic Lua scripts, while any number of workers act on it concurrently,
finish late, or crash. This project models that protocol, the code around it, and
the in-memory broker its tests use, and proves what holds over whole runs.

Three levels describe the broker, each tied to the next:

1. `RedisBroker`, `RedisStore`, `TaskJson`: the store as Redis holds it (lists, hashes
   and a sorted set of JSON documents), the scripts as updates in place, and the codec.
   The scripts are total: malformed documents take the branches the Lua code has for them.
2. `StoreRefinement`, `StoreSystem`: every script on the JSON store does what the typed step of
   `Broker` does to the messages. The relation between the two is "each stored document
   carries the fields of this message", valid or not. `StoreSystem` closes the store with
   workers that hold what they parsed from replies, and shows that its runs and the
   protocol's are the same.
3. `Protocol`: the typed broker with its workers as a transition system. A step may be
   taken by anyone at any time, carries the clock reading its caller took earlier, and a
   completion uses the worker's own copy of the message, whether or not its lease is
   still valid, because the scripts do not check that.

On top of the protocol:

- `Safety`: what holds in **every** run, stale completions and crashes included
  (provenance of copies, no lost task, the execution bound, delays).
- `Leases`: what needs leases to be respected (one copy per task, status and failure
  records, termination of succeeded tasks, conservation against the counters); the exact
  condition under which a completion keeps single ownership; and the theorem that
  completing within the visibility timeout is enough for all of it.
- `Outcomes`: what each step does in the fields of messages and containers alone, and what
  follows over runs: which tasks have results, which are dead, what the fields of a copy say.
- `Passes`, `Interference`: the promotion and reclaim passes, undisturbed, and the reclaim
  pass with other workers acting between its scripts.
- `Worker`: the polling step, and recovery from crashes by repeating it.
- `FakeBroker`, `Simulation`, `Replies`: the tests' in-memory broker, its simulation of
  Redis, and what callers of the two can tell apart.
- `ThreadPool`, `WorkerLoop`: the mutex and condition-variable protocol of the pool, and
  the worker's Run loop over it, with its admission rule and its stop logic.
- `Metrics`, `Counters`: the flat Redis metrics hash and the in-memory collector it refines,
  and the counters that callers record after each script.
- `Tasks`, `TaskIds`, `RetryDelays`, `Sums`: messages, ids, backoff arithmetic, weighted sums.

Terms used below. A *lease-held run* is one in which each completion finds in `running`
exactly the copy that its worker reserved, and enqueued ids are fresh (`Leases.LeaseRun`).
A *timely run* is one in which each completion comes no later than `reserved_at_ms` plus
the one visibility timeout, and enqueued ids are fresh; it says nothing about leases
(`Leases.TimelyRun`).

Properties that do not hold of the code as it stands, with their exact condition:

- One copy per task over arbitrary runs. A worker that retries after its lease was
  reclaimed leaves two copies (`Leases.LateRetryDuplicates`), one that acks leaves the task
  pending with a result (`Leases.LateAckLeavesTaskPending`). `Leases.OneCopyIffSafe` gives
  the condition for each completion and `Leases.OneOwnerIffAllSafe` for whole runs.
- Every enqueued message can be read back. `Enqueue` accepts ids that are not UUIDs and
  invalid policies. Whether the reply of a reserve parses is decided exactly by that
  (`RedisStore.ReservedParsesIffValid`); a task with such messages only is never handed to
  a worker and never ends (`Safety.UnreadableNeverCompletes`, `Safety.UnreadableIsStuck`).
- FakeBroker gives its callers the replies Redis gives. It generates no ids, hands out
  messages that do not parse, and does not record promotions, so that a promoted retry
  still reads retrying (`Replies.MissingIdDiffers`, `Replies.UnreadableReserveDiffers`,
  `Replies.PromotedRetryDiffers`). `Replies.IndistinguishableIff` says that, with distinct
  due times, no other reply of the operations and queries listed there differs.
- The metrics hash equals the collector for all durations. The collector's maximum starts
  at zero and the hash's at the first duration recorded, so a histogram with only negative
  durations differs (`Metrics.NegativeDurationDiffers`); `Metrics.HashRefinesCollector`
  gives the condition.
- `Shutdown` returns only after the pool has drained. A second call returns at once with
  work still queued (`ThreadPool.SecondShutdownDoesNotWait`); `ThreadPool.ShutdownWaitsIff`
  says for which calls it holds.
- When `Run` returns, every task it reserved has finished. A second `Run` reserves tasks
  that the stopped pool drops (`WorkerLoop.SecondRunDropsTask`); `WorkerLoop.RunServesIff`
  gives the condition.
- The counter equations at every moment. Counters are recorded after the script, so they
  hold up to what is still owed or lost (`Counters.CountersConserve`, `Counters.CounterLags`).

`dafny verify dfyconfig.toml` checks the whole project.

## Model

| member | source | states |
|---|---|---|
| `Tasks.IsValidUuidFormat` | src/task_id.cc:16-34 | The early-exit scan accepts exactly the strings of 36 characters with dashes at 8, 13, 18, 23 and hexadecimal digits elsewhere. |
| `TaskIds.FormatIsUuid` | src/task_id.cc:55-63 | The text of any sixteen bytes is one that parsing accepts as a UUID, with the upper halves of bytes 6 and 8 at positions 14 and 19. |
| `TaskIds.Generate` | src/task_id.cc:42-64 | Whatever the random bytes, the generated id is UUID-shaped and carries version 4 and the variant of section 5.4 of RFC 9562. |
| `RetryDelays.RetryDelayBounded` | src/retry_policy.cc:9-18 | For a valid policy, every delay up to the retry limit is between zero and base delay times max(1, multiplier) to the power max_retries − 1 (the base delay if no retry is allowed). |
| `RetryDelays.RetryDelayEnds` | src/retry_policy.cc:9-18 | The first delay is the base delay, and the last is that ceiling if the multiplier is at least one. |
| `RetryDelays.RetryDelayNondecreasing` | src/retry_policy.cc:9-18 | With a multiplier of at least one, delays do not decrease in the retry count, count zero and below included. |
| `RetryDelays.RetryDelayIsGeometric` | src/retry_policy.cc:9-18 | The delay of the k-th retry is the k-th term, rounded down, of the real sequence with first term base_delay_ms and ratio multiplier; a count of zero or less gives the base delay. |
| `RetryDelays.RetryDelayMultiplies` | src/retry_policy.cc:9-18 | With a whole multiplier n each delay is exactly n times the one before. |
| `Protocol.PendingIsFifo` | src/redis_scripts.cc:19-140 | In every run the messages pushed onto pending are, in order, those reserved so far followed by those still waiting. |
| `Safety.CopyOrigin` | src/redis_scripts.cc:19-140 | A copy found anywhere after a step, in-flight copies included, was there before or is made by that step out of an older copy in the one way that step has. |
| `Safety.EveryCopyIsTraced` | src/redis_scripts.cc:19-140 | In every run each copy keeps the id, name, payload, retry policy and creation time of an enqueued message, and 0 ≤ retry_count ≤ max_retries if that was so when enqueued. |
| `Safety.NoTaskIsLost` | src/redis_scripts.cc:19-140 | In every run, crashes and stale completions included, each enqueued id has a copy in pending, delayed, running or dead, or a stored result. |
| `Safety.OnlyReadableAreHandedOut` | src/redis_broker.cc:99-111 | In every run workers hold only messages with a UUID-shaped id and a valid policy. |
| `Safety.UnreadableNeverCompletes` | src/redis_broker.cc:99-111 | In every run a task enqueued only with messages that do not parse is held by no worker, has no result, no failure and no dead entry, and stays in pending, delayed or running for ever. |
| `Safety.UnreadableIsStuck` | src/redis_broker.cc:99-111 | An input that shows it: a message with id "x" is moved to running, and no worker holds it. |
| `Safety.CopiesChange` | src/redis_scripts.cc:19-140 | By how much enqueue, promote, reserve, reclaim and dead-letter retry change the number of copies of any id, overwritten entries counted. |
| `Safety.CopiesComplete` | src/redis_scripts.cc:83-117 | The same for ack, retry and fail, by a worker with or without the lease. |
| `Safety.ExecutionBound` | src/worker.cc:148-192 | In every run a task is reserved at most (max_retries + 1) × (enqueues + reclaims + successful dead-letter retries) times. |
| `Safety.DelaysInEveryRun` | src/redis_broker.cc:133-147 | In every run each delayed member's score is its own run_at_ms, and every retried copy is due no later than now plus its policy's ceiling. |
| `Safety.RetryTimeFits` | src/redis_broker.cc:133-141 | In every run, of any messages, the run time of a retry is not before the clock reading and fits 64 bits whenever the clock plus the policy's ceiling does; its count is within the limit, and not negative if it was enqueued in range. |
| `Safety.DelayedUntilDue` | src/redis_scripts.cc:36-56 | In every run a delayed member stays where it is, with its score, as long as the clock is below that score. |
| `Safety.CompletionsUseUpLife` | src/worker.cc:148-192 | In every run without enqueues, reclaims and dead-letter retries, each completion uses up at least one of the executions left in pending, delayed and in-flight copies that parse, which never drop below zero. |
| `Safety.EveryRunIsSafe` | src/redis_scripts.cc:19-140 | All of these invariants hold in every state reachable from an empty queue. |
| `Leases.LeaseHeldRun` | src/redis_scripts.cc:19-140 | In every lease-held run each enqueued id has exactly one copy, or none and a result with status succeeded; the status hash equals the copy's status and its container's; the failures hash (absent read as empty) equals the copy's last_error for tasks enqueued without one. |
| `Leases.StatusTellsPlace` | src/redis_broker.cc:154-160 | In such a state the status of an enqueued id is succeeded, running or dead if and only if it has a result, a running entry or a dead entry, and pending or retrying if and only if it waits. |
| `Leases.OneCopyIffSafe` | src/redis_scripts.cc:83-117 | From one copy of each task, a completion by any worker, however late, keeps one copy of each if and only if the id is still running, or it is a fail, or an ack of a task that has a result, or a retry already in the delayed set. |
| `Leases.OneOwnerIffAllSafe` | src/redis_scripts.cc:83-117 | Over every run with fresh ids, leases respected or not: every state has one copy of each task if and only if every completion is safe in that sense. |
| `Leases.LateRetryDuplicates` | src/redis_scripts.cc:83-89 | For every valid task with a retry left, whatever its run time, and every timeout, error and clock reading there is a run in which a retry after the lease was reclaimed leaves two copies. |
| `Leases.LateAckLeavesTaskPending` | src/redis_scripts.cc:108-117 | For every valid task there is a run in which an ack after the lease was reclaimed stores a result while the task is pending again. |
| `Leases.SucceededForever` | src/redis_scripts.cc:108-117 | In a lease-held run a task with a result keeps it and its status, has no copy, and is never reserved again. |
| `Leases.NotReservedEarly` | src/redis_scripts.cc:19-56 | In a lease-held run a task waiting in the delayed set is not reserved while the clock is below its score. |
| `Leases.NoEarlyExecution` | src/redis_broker.cc:72-147 | From any point of a lease-held run, a task enqueued at reading t with run_at_ms later than t, or failing with retry_count below max_retries at reading t, for the k-th time, is not reserved before run_at_ms, or before t + ComputeRetryDelayMs(policy, k). |
| `Leases.TasksAreConserved` | src/redis_broker.cc:65-202 | In every lease-held run, counting steps: enqueues = pending + delayed + running + dead + acks, and fails = dead + successful dead-letter retries. |
| `Leases.TimelyRunHoldsLeases` | src/redis_scripts.cc:58-81 | In every timely run each completion finds its own copy in running, whatever reclaim passes others make. |
| `Leases.TimelyRunsAreExclusive` | src/worker.cc:79-95 | Every timely run from an empty queue is lease-held, keeps one tidy copy of each task, and conserves tasks. |
| `Outcomes.EnqueueOutcome` | src/redis_broker.cc:72-91 | In raw fields: a task with run_at_ms later than the reading is delayed with that score; any other is at the back of pending, its run time erased; nothing else changes. |
| `Outcomes.PromoteOutcome` | src/redis_scripts.cc:36-56 | In raw fields: the member is due, loses its run time and is pending at the back. |
| `Outcomes.ReserveOutcome` | src/redis_scripts.cc:19-34 | In raw fields: the oldest message is running with the reading as its reserved_at_ms. |
| `Outcomes.ReclaimOutcome` | src/redis_scripts.cc:58-81 | In raw fields: a running entry goes back to pending without reserved_at_ms if and only if strictly more than the timeout has passed since then. |
| `Outcomes.ReviveOutcome` | src/redis_scripts.cc:119-140 | In raw fields: the first dead entry of the id is pending again, count zero, error, run time and lease cleared. |
| `Outcomes.SuccessOutcome` | src/redis_broker.cc:128-131 | In raw fields: a success stores the result with success true, an empty object and no error, and clears the failure. |
| `Outcomes.DeadLetterOutcome` | src/worker.cc:154-191 | In raw fields: with no handler, or a failure with retry_count at max_retries or above, the running copy becomes the newest dead entry with the reason, status is dead, and results are unchanged. |
| `Outcomes.RetryOutcome` | src/redis_broker.cc:133-147 | In raw fields: a failure with retry_count below max_retries puts the worker's copy, count one higher, into the delayed set under its due time. |
| `Outcomes.RetryIsOnlyCopy` | src/redis_scripts.cc:83-89 | With the lease held, that is then the only copy of the task. |
| `Outcomes.ResultIffSuccess` | src/worker.cc:170-175 | In every run, stale completions included, a task has a result if and only if some completion of it had outcome success. |
| `Outcomes.OnlyExhaustedDie` | src/worker.cc:154-191 | In every lease-held run every dead entry has no retry left, or had no handler. |
| `Outcomes.FieldsInEveryRun` | src/redis_scripts.cc:19-140 | In every run of tasks enqueued without a lease: waiting copies carry no lease, and a run time exactly if delayed, which is their score; running, dead and in-flight copies carry a lease and no run time; each has the status of its place. |
| `TaskJson.RoundTrip` | src/task_json.cc:177-291 | Serialising and parsing returns the same message if and only if its id is UUID-shaped and its policy valid; otherwise the parse fails. |
| `TaskJson.ParsedIsStable` | src/task_json.cc:204-291 | Whatever document is accepted yields a valid id and policy and integers of the right width, and re-serialising and re-parsing returns the same message. |
| `TaskJson.SchemaVersionOptional` | src/task_json.cc:73-95 | Dropping schema_version from an accepted document does not change the parse. |
| `TaskJson.VersionOneOnly` | src/task_json.cc:73-95 | An accepted document with another schema_version put in is accepted if and only if that is an integer that reads as 1 in 32 bits. |
| `TaskJson.IntegerMultiplier` | src/task_json.cc:105-136 | A multiplier written as an integer is read as that number if not negative, and refused otherwise. |
| `TaskJson.AcceptedIffWellTyped` | src/task_json.cc:204-291 | In raw fields: a document is accepted if and only if every required field is present and of its type, every optional field is absent or of its type, the version is 1, the id is UUID-shaped, the status is one of the six texts and the policy is valid as read. |
| `TaskJson.ReadFromFields` | src/task_json.cc:204-291 | And then each field of the message is the document's, integers cut to 32 or 64 bits, absent optional fields absent or empty. |
| `TaskJson.ParsesIffCarriesValid` | src/task_json.cc:204-291 | Parsing succeeds with a message if and only if the document's fields are, one by one, that message's, its id is UUID-shaped and its policy valid. |
| `TaskJson.CarriedParsesIffValid` | src/task_json.cc:204-291 | A document that carries the fields of a message, valid or not, parses if and only if the message is valid, and to no other message. |
| `TaskJson.PolicyRoundTrip` | src/task_json.cc:99-136 | A policy is read back unchanged if and only if it is valid. |
| `TaskJson.ResultRoundTrip` | src/task_json.cc:138-175 | Every task result is read back unchanged. |
| `RedisStore.ReserveCommutes` | src/redis_scripts.cc:28-30 | On every document that parses, the Lua edit of a reserve parses to the record update. |
| `RedisStore.PromoteCommutes` | src/redis_scripts.cc:51-53 | The same for promotion, which removes run_at_ms. |
| `RedisStore.ReclaimCommutes` | src/redis_scripts.cc:76-78 | The same for reclaiming, which removes reserved_at_ms. |
| `RedisStore.FailCommutes` | src/redis_scripts.cc:98-100 | The same for failing, with any reason, the empty one included. |
| `RedisStore.ReviveCommutes` | src/redis_scripts.cc:128-133 | The same for a dead-letter retry, which removes three optional fields. |
| `RedisStore.ReservedParsesIffValid` | src/redis_broker.cc:99-111 | For every enqueued message, the reply of a reserve, which is its document after the Lua edit, parses if and only if the id is UUID-shaped and the policy valid, and then to the reserved copy. |
| `StoreRefinement.EnqueueRefines` | src/redis_broker.cc:65-92 | The transaction on the store represents the typed enqueue, for every message, of any id and policy. |
| `StoreRefinement.PromoteRefines` | src/redis_scripts.cc:36-56 | For each due message of least score, its document is one the script may pick; the script then returns 1 and represents the typed promotion. |
| `StoreRefinement.PickedMemberIsDue` | src/redis_scripts.cc:39-43 | Whichever member the script picks is the document of a due message of least score. |
| `StoreRefinement.ReserveRefines` | src/redis_scripts.cc:19-34 | The script returns nothing if and only if the queue is empty; its reply parses to the reserved copy of the oldest message if that is valid, and does not parse otherwise. |
| `StoreRefinement.ReclaimRefines` | src/redis_scripts.cc:58-81 | The script represents the typed reclaim and returns 1 if and only if the entry is stale. |
| `StoreRefinement.RetryRefines` | src/redis_scripts.cc:83-89 | The script represents the typed retry with the worker's own copy. |
| `StoreRefinement.FailRefines` | src/redis_scripts.cc:91-106 | The script represents the typed fail, whether or not the task is running. |
| `StoreRefinement.AckRefines` | src/redis_scripts.cc:108-117 | The script represents the typed ack, whether or not the task is running. |
| `StoreRefinement.ReviveRefines` | src/redis_scripts.cc:119-140 | The scan finds the first dead entry with the id at the same place as the typed step, removes exactly it, and returns 1 if and only if there is one. |
| `StoreSystem.EveryStoreRunIsAProtocolRun` | src/redis_scripts.cc:19-140 | For every run, from empty, of the JSON store and its workers, which complete with the copies they parsed from replies: there is a run of the protocol that ends with a broker which the store represents and the same copies in the workers' hands. Arguments are of their C++ types and the clock plus the retry ceiling fits 64 bits; that retries fit is derived. |
| `StoreSystem.StoreFollowsEveryRun` | src/redis_scripts.cc:19-140 | The other way: the store and its workers can take every such run of the protocol, of messages valid or not, with the same outcome. |
| `StoreSystem.MalformedBranchesUnreachable` | src/redis_scripts.cc:19-106 | In every run of the store and its workers, of any messages and values, every stored document has a string id and every running one a reservation time, so no script takes a branch for malformed documents: each refuses only when there is nothing to take, or the lease has not run out. |
| `StoreSystem.StoredResultsReadSuccess` | src/redis_broker.cc:128-131 | In every run of the store and its workers each stored result parses to success true, an empty object and no error. |
| `Passes.FirstDue` | src/redis_scripts.cc:39-42 | The range query returns a member of least score with score at most now, or nothing if all scores are later. |
| `Passes.PromotePassIsExact` | src/redis_broker.cc:94-97 | A pass that runs until nothing is due moves exactly the members with score at most now, each once, in nondecreasing score order, to the back of the queue, marks them pending and changes nothing else. |
| `Passes.ReclaimPassIsExact` | src/redis_broker.cc:113-126 | An undisturbed pass returns exactly the stale entries among its ids to the queue and marks them pending, leaves every other entry and status as it was, and counts its moves. |
| `Interference.ReclaimPassUnderInterference` | src/redis_broker.cc:113-126 | Over every run in which others take any steps between the snapshot and each script, their reserves with readings within the timeout: at the end no running entry is stale; each script moves only an entry that was in the snapshot and stale, and every lease taken since survives it; the returned count is the pass's own share of the reclaims and the number of distinct tasks moved. |
| `RedisBroker.ListRemoveAt` | src/redis_scripts.cc:125 | Removing by value takes out exactly the first matching entry and keeps the order of the rest. |
| `RedisBroker.Client.constructor` | include/taskqueue/redis_keys.h:7-13 | A new store is empty. |
| `RedisBroker.Client.Enqueue` | src/redis_broker.cc:65-92 | The store becomes that of the enqueue transaction of the task, under the generated id if it has none, and that id is returned; the message is in the delayed set if its run time is later than now, and at the head of pending otherwise. |
| `RedisBroker.Client.PromoteOne` | src/redis_scripts.cc:36-56 | Nothing happens if no member is due; otherwise some due member of least score is promoted, or dropped if malformed, with the script's return value. |
| `RedisBroker.Client.PromoteDueTasks` | src/redis_broker.cc:94-97 | The loop terminates on any store; on a store that represents a broker it is a complete promotion pass, after which nothing is due. |
| `RedisBroker.Client.Reserve` | src/redis_broker.cc:99-111 | The store becomes that of the script, and the caller gets the reply if it parses and nothing otherwise. |
| `RedisBroker.Client.ReclaimOne` | src/redis_scripts.cc:58-81 | Store and return value are those of the script. |
| `RedisBroker.Client.ReclaimStaleTasks` | src/redis_broker.cc:113-126 | On any store exactly the stale running entries are gone afterwards; on one that represents a broker the pass is the typed one over the snapshot's ids, and the count is its moves. |
| `RedisBroker.Client.Ack` | src/redis_broker.cc:128-131 | The store becomes that of the script, with the success result. |
| `RedisBroker.Client.Retry` | src/redis_broker.cc:133-147 | The store becomes that of the script, called with the retried copy and its run time. |
| `RedisBroker.Client.Fail` | src/redis_broker.cc:149-152 | The store becomes that of the script. |
| `RedisBroker.Client.RetryDeadTask` | src/redis_broker.cc:187-193 | The scan loop moves the first dead entry with the id, and reports whether there was one. |
| `RedisBroker.RunSchedulerTick` | src/scheduler.cc:7-11 | After a tick no running entry is stale; on a store that represents a broker it is a complete promotion pass followed by a reclaim pass over exactly the ids that were running, with the same time. |
| `RedisBroker.ProcessTask` | src/worker.cc:148-192 | Success acks; a missing handler, or a failure with retry_count at max_retries or above, fails with the reason; any other failure retries with the count one higher and the backoff added; and each represents the protocol's completion. |
| `Worker.CompletionsUseUpWork` | src/worker.cc:148-192 | In a lease-held run of any workers without enqueues and dead-letter retries, reclaims and crashes included, each completion uses up at least one of the executions left in pending, delayed and running. |
| `Worker.SoundAfter` | src/worker.cc:62-99 | Every lease-held history is one from which recovery starts. |
| `Worker.TickQueue` | src/scheduler.cc:7-11 | After a tick the queue holds what waited before, in front, and everything that was due or stale; it is empty if and only if nothing was pending, due or stale; nothing is stale. |
| `Worker.PromoteDueTasks` | src/scheduler.cc:7-11 | From any state the pass is a lease-held run that changes only the broker, and is a complete promotion pass. |
| `Worker.ReclaimStaleTasks` | src/scheduler.cc:7-11 | From any state the pass is a lease-held run that changes only the broker, and is a complete reclaim pass over the running ids. |
| `Worker.RunOnce` | src/worker.cc:103-121 | From any state it is a lease-held run of a promotion pass, a reclaim pass, a reserve and at most one execution; it runs a task if and only if the queue after the passes starts with a message that parses; the new broker state is given exactly, and work left goes down by the execution. |
| `Worker.Drain` | src/worker.cc:103-121 | After any lease-held history, whatever copies other workers hold and never complete, repeating RunOnce with time advancing terminates, after at most as many executions as there was work left; only messages that do not parse stay live, and every other task is succeeded or dead. |
| `FakeBroker.InsertSorted` | tests/fake_broker.cc:21-30 | Insertion keeps the delayed vector sorted by run time. |
| `FakeBroker.InsertContents` | tests/fake_broker.cc:21-30 | Insertion adds exactly the new entry. |
| `FakeBroker.FakePromoteIsExact` | tests/fake_broker.cc:52-65 | On a sorted vector the early exit moves what a full scan would move, in the same order, and keeps the rest. |
| `FakeBroker.Fake.LowerBound` | tests/fake_broker.cc:24-28 | The binary search splits the sorted vector into earlier entries and the others. |
| `FakeBroker.Fake.AddDelayedTask` | tests/fake_broker.cc:21-30 | The entry is inserted before the first that is not earlier, and the vector stays sorted. |
| `FakeBroker.Fake.Enqueue` | tests/fake_broker.cc:32-50 | The new state is that of the abstract enqueue, the vector sorted, and the task's own id is returned, even if empty. |
| `FakeBroker.Fake.PromoteDueTasks` | tests/fake_broker.cc:52-65 | The loop with its early exit reaches the abstract promotion. |
| `FakeBroker.Fake.Reserve` | tests/fake_broker.cc:67-79 | The oldest message goes to running and is returned; an empty queue gives nothing. |
| `FakeBroker.Fake.ReclaimStaleTasks` | tests/fake_broker.cc:81-107 | Walking the running map in some order while erasing from it visits each entry once; the count is the messages added to the queue. |
| `FakeBroker.Fake.Ack` | tests/fake_broker.cc:109-115 | The new state is that of the abstract ack. |
| `FakeBroker.Fake.Retry` | tests/fake_broker.cc:117-133 | The new state is that of the abstract retry, the vector sorted. |
| `FakeBroker.Fake.Fail` | tests/fake_broker.cc:135-151 | A dead entry is written even for a task that is not running, with a blank message, unlike the script. |
| `FakeBroker.FailOfMissingTask` | tests/fake_broker.cc:135-151 | That blank message: the id, the reason and the default policy, and nothing else. |
| `FakeBroker.Fake.RetryDeadTask` | tests/fake_broker.cc:179-196 | The dead entry, if any, goes back to the queue with its count and errors cleared. |
| `Simulation.SimPromote` | tests/fake_broker.cc:52-65 | With distinct due times the early-exit pass and the script loop reach matching states. |
| `Simulation.SimReclaim` | tests/fake_broker.cc:81-107 | With the same order of ids both reclaim passes reach matching states. |
| `Simulation.SimRevive` | tests/fake_broker.cc:179-196 | Both brokers find the dead task or neither does, and reach matching states. |
| `Simulation.FakeSimulatesRedis` | tests/fake_broker.cc:21-196 | From empty, over every lease-held sequence of operations with distinct due times, the same reclaim order and tasks that have ids: pending agrees as a sequence; delayed, running, dead, results and failures agree as contents; statuses agree except on exactly the retries that were promoted and not reserved since, which read retrying instead of pending. |
| `Simulation.StatusesDifferIffPromoted` | tests/fake_broker.cc:52-65 | Between matching brokers the status of an id differs if and only if it is such a promoted retry. |
| `Replies.RepliesAgreeIff` | tests/fake_broker.cc:32-214 | Between matching brokers the reply of an operation (id, reserved message, reclaim count, dead task found, status, failure reason, parsed result, dead list, statistics) agrees if and only if it does not enqueue a task without an id, reserve a message that does not parse, or ask for the status of a promoted retry still pending. |
| `Replies.IndistinguishableIff` | tests/fake_broker.cc:21-214 | Two systems from empty, each with its own broker and workers, driven by the same lease-held operations and queries: all replies agree if and only if no operation is of these three kinds, and then the brokers match and the workers hold the same copies. |
| `Replies.PlainOperationsAgree` | tests/fake_broker.cc:67-79 | That is so whenever only messages that parse are enqueued and no status is asked for. |
| `Replies.PromotedRetryDiffers` | tests/fake_broker.cc:52-65 | For every valid task with a retry left, a run (enqueue, reserve, fail, wait, promote, ask) in which the status replies differ. |
| `Replies.UnreadableReserveDiffers` | tests/fake_broker.cc:67-79 | For every message that does not parse, a run in which FakeBroker hands it out and Redis does not. |
| `Replies.MissingIdDiffers` | tests/fake_broker.cc:32-50 | For every task without an id, an enqueue whose replies differ. |
| `ThreadPool.PoolRun` | src/thread_pool.cc:31-112 | In every reachable state: while a thread sleeps, each queued job has a ready thread or an undelivered notify of its own; a blocked WaitIdle caller has something to wait for; after stop a sleeping thread has notify_all still to come; jobs start in order of acceptance and each is finished or running exactly once; the first Shutdown call returns only by joining and every later one at once; and a WaitIdle call that is back has seen every job accepted before it finish. |
| `ThreadPool.QueueIsServed` | src/thread_pool.cc:31-40 | In every reachable state a non-empty queue implies an awake thread or an undelivered notify. |
| `ThreadPool.NoDeadlock` | src/thread_pool.cc:49-112 | In every reachable state with work left, or with a shutdown that has not joined, some step that is not a spurious wakeup is enabled. |
| `ThreadPool.ShutdownTerminates` | src/thread_pool.cc:49-65 | After stop, every run takes at most a bounded number of pool steps, whatever callers do, and accepts nothing more. |
| `ThreadPool.JoinedMeansDrained` | src/thread_pool.cc:49-65 | When the joining call returns, every accepted job has run exactly once, in order of acceptance, and nothing is queued or active. |
| `ThreadPool.ActiveIsBounded` | src/thread_pool.cc:84-112 | In every reachable state active_count is the number of running threads and at most n. |
| `ThreadPool.ShutdownWaitsIff` | src/thread_pool.cc:49-65 | For a Shutdown call made in any reachable state: its return implies a drained pool in all continuations if and only if stop was not set at the call, or the pool was idle there. |
| `ThreadPool.SecondShutdownDoesNotWait` | src/thread_pool.cc:49-56 | A run in which a second Shutdown call has returned while the first is in progress and a job is still queued. |
| `ThreadPool.WaitIdleReturnsDone` | src/thread_pool.cc:42-47 | In every run, when a call of WaitIdle has returned, every job accepted before it was made has finished. |
| `ThreadPool.IdleCallReturns` | src/thread_pool.cc:42-47 | A WaitIdle call made, or woken and checked again, while nothing is queued or active returns in that step. |
| `ThreadPool.BusyCallBlocks` | src/thread_pool.cc:42-47 | One made or checked while something is queued or active blocks. |
| `ThreadPool.WaitersProceed` | src/thread_pool.cc:42-112 | In every reachable state with a WaitIdle call not returned, some step of the pool or of a woken caller is enabled. |
| `ThreadPool.WaitIdleTerminates` | src/thread_pool.cc:42-112 | From every reachable state, every run without new jobs has a bounded number of such steps, up to a few more for each new call and spurious wakeup. |
| `ThreadPool.WaitIdleReturns` | src/thread_pool.cc:42-112 | A run of such steps that cannot be extended has every WaitIdle call returned. |
| `WorkerLoop.InFlightIsBounded` | src/worker.cc:71-97 | With Run as the only submitter, queued plus active never exceeds the thread count. |
| `WorkerLoop.AdmitsIffRoom` | src/worker.cc:123-125 | In every reachable state after the flag check, the loop goes on to reserve if queued plus active is below the thread count, and sleeps otherwise. |
| `WorkerLoop.RunServesIff` | src/worker.cc:62-101 | When a call of Run returns, in any run with any calls of Stop and earlier calls of Run, every task it reserved was accepted and has finished, if and only if the pool's stop flag was not set when it began, or it reserved nothing. |
| `WorkerLoop.SecondRunDropsTask` | src/worker.cc:62-101 | A run in which a second call of Run reserves a task and the pool drops it. |
| `Metrics.MetricsCollector.IncrementCounter` | src/metrics.cc:9-13 | The counter grows by delta from zero if new; nothing else changes. |
| `Metrics.MetricsCollector.ObserveDurationMs` | src/metrics.cc:20-27 | Count, sum and maximum are updated from zeros if new; nothing else changes. |
| `Metrics.CollectedMeans` | src/metrics.cc:9-36 | After any records each counter is the total of its increments, and each histogram the number, total and largest of its durations. |
| `Metrics.RedisMetrics.RecordCounter` | src/redis_broker.cc:301-307 | One hash field grows by delta. |
| `Metrics.RedisMetrics.RecordDurationMs` | src/redis_broker.cc:309-323 | Count and sum fields grow, and the maximum field is set if absent or smaller. |
| `Metrics.RedisMetrics.CollectMetrics` | src/redis_broker.cc:337-366 | Reading the fields in any order, on any hash, gives the metrics the hash stands for. |
| `Metrics.LastColonBefore` | src/redis_broker.cc:348-356 | The last colon of a histogram key is the one before the suffix, whatever colons the name has. |
| `Metrics.ParseFieldInjective` | src/redis_broker.cc:24-46 | No two field names are read as the same part of the same metric. |
| `Metrics.FieldNames` | src/redis_broker.cc:24-41 | The field names as they stand in Redis. |
| `Metrics.HashRefinesCollector` | src/redis_broker.cc:301-370 | For every sequence of records and all metric names, the decoded hash equals the collector's counters and histograms if and only if each histogram has at least one non-negative duration. |
| `Metrics.NegativeDurationDiffers` | src/redis_broker.cc:315-319 | A single negative duration makes the two differ. |
| `Counters.CountersConserve` | src/redis_broker.cc:65-202 | In every lease-held run in which callers record their counters some time after the script, or crash before: the decoded metrics satisfy tasks_enqueued_total = pending + delayed + running + dead + tasks_completed_total, tasks_dead_lettered_total = dead + dead-letter retries, and tasks_retried_total = completions that were neither acks nor fails, up to exactly the increments still owed or lost; with nothing owed or lost they hold. |
| `Counters.CounterLags` | src/redis_broker.cc:86-92 | An input that shows the lag: right after an enqueue the counter is still zero. |

## Left out

- Redis client, connection, ping, script loading, the NOSCRIPT reload and Redis errors in mid-operation: each Lua script and each MULTI/EXEC enqueue is one atomic step that succeeds.
- JSON text: documents are values; cjson decoding and encoding are taken to be faithful on stored messages (number formatting, empty arrays and nesting limits are not modelled), and JSON arrays are not tables for the scripts. A stored id that is not a string, or a reservation time that is not an integer, is treated as malformed.
- The two error texts for an unsupported schema version are one.
- Floating point: multiplier and power are over the reals, times are integers (as scores they are exact doubles up to 2^53), and a delay too large for the cast to a 64-bit integer is outside the model; reads of JSON integers into 32 and 64 bits wrap explicitly.
- Clock: a shared monotone clock replaces the wall clock; each step carries a reading not later than it.
- TaskIds.Generate: randomness is a parameter; where a task is enqueued the generated id is one too, and ids are fresh where that matters.
- Safety.ExecutionBound: stated for one retry limit per id and a count within it at each enqueue, since copies of different policies under one id share no limit.
- Metrics: overflow of counters and the race between two clients recording a duration are not modelled; hash values are integers rather than decimal texts; gauges, which the collector only stores and Redis computes live, are left out.
- Leases.LeaseHeldRun: the scripts do not guarantee single ownership for runs with stale completions, so it is stated for lease-held runs; OneCopyIffSafe says which completions keep it otherwise.
- Simulation.FakeSimulatesRedis: stated for tasks that have ids, since FakeBroker files a task without one under the empty id; and with equal due times Redis orders members by their text and FakeBroker by reverse insertion, so the queue order is stated for distinct due times only.
- Worker.RunOnce: acts on a value of the system state, and other workers, though they may hold copies, take no step during the call; concurrent workers are covered by the theorems about interleaved runs.
- Worker.Drain: a task whose messages do not parse stays live, since the code never ends it; that other workers act meanwhile is covered by CompletionsUseUpWork, which bounds the executions but does not say that workers are scheduled.
- ThreadPool: an interleaved state machine over values, critical sections as steps, rather than a class updated in place; a pool without threads, exceptions escaping a job and the destruction of threads are not modelled.
- Replies: the dead-letter list is compared as contents, since FakeBroker lists a hash map in no particular order.
- Heartbeats, worker listing, host names, metrics formatting, configuration validators, command line, Python client, logging and build files would only add easy members.
