# Evolu write pipeline: stamping and sending a batch of CRDT messages

This project models the write path of the Evolu local-first store, found in
`packages/evolu/src/send.ts`. The caller submits a non-empty batch of pending
writes (`NewCrdtMessage`: table, row, column, value). `send` does the following:

1. It reads the replica's clock (the last timestamp and the merkle tree).
2. It stamps the batch (`sendMessages`). It calls `sendTimestamp` once per
   message, in batch order, and each call gets the timestamp the previous
   call issued. Each message gets the string form of its timestamp.
3. It applies the stamped messages to the merkle tree (`applyMessages`).
4. It persists the new clock (`updateClock`), which holds the new tree and
   the last timestamp issued.
5. It posts the batch, the new clock and the owner to the sync worker
   (`callSync`), with no diff hint.
6. It re-runs the caller's queries (`query`).

The first failure ends the pipeline, and `send` returns that failure.

The model has three modules:

- `Crdt` (`crdt.dfy`) holds the values: timestamps, messages, the clock, the
  sync worker's input, and the three error kinds. It also holds `Env`, the
  environment the pipeline runs in. `Env` has the configuration, the owner,
  the wall clock, and the operations `send.ts` imports. These operations are
  taken as given functions, because their bodies are not part of this model.
  The merkle tree, a cell value, the owner and the diff hint are opaque types.
- `Stamping` (`stamping.dfy`) holds `SendMessages`. It is a loop that threads
  the running timestamp through the batch. It is proved equal to the
  specification function `Stamp`. The lemmas relate `Stamp` to an independent
  reference `Issue`, the k-th iterate of `sendTimestamp` from the clock's
  timestamp.
- `SendPipeline` (`send.dfy`) holds `Send`, a straight-line method. It returns
  the outcome and a trace of the calls it made into collaborators
  (`ReadClock`, `Apply`, `UpdateClock`, `Sync`, `Query`). `CallSync` builds
  the sync worker's request, and `Send`'s contract pins down its content.

The wall clock is a parameter: `env.now(k)` is the reading taken when the
k-th timestamp of the batch is issued. The outcome of each database operation
is a function of the arguments that operation receives.

## Model

| member | source | states |
|---|---|---|
| `Stamping.SendMessages` | packages/evolu/src/send.ts:31-61 | The loop that reassigns the running timestamp after each message returns exactly `Stamp` of the clock's timestamp and the batch. On success it returns one message per input. |
| `Stamping.StampLength` | packages/evolu/src/send.ts:34-45 | A successful stamping has exactly as many stamped messages as the batch has messages. |
| `Stamping.StampCopiesFields` | packages/evolu/src/send.ts:50-56 | Each stamped message has the table, row, column and value of the input message at the same position. |
| `Stamping.IssueFailurePersists` | packages/evolu/src/send.ts:45-48 | Once a call of `sendTimestamp` in the chain fails, every later iterate has the same failure. No later call can undo it. |
| `Stamping.StampOutcome` | packages/evolu/src/send.ts:45-60 | Stamping after k timestamps succeeds exactly when the iterate at k plus the batch length succeeds. On failure it has that iterate's error. On success its returned timestamp is that iterate. |
| `Stamping.StampAt` | packages/evolu/src/send.ts:47-56 | After k timestamps, the message at position j-k-1 is its input message with the string form of the j-th iterate attached. |
| `Stamping.StampTimestamps` | packages/evolu/src/send.ts:47-49 | The j-th stamped message (counting from 1) carries `timestampToString` of the j-th iterate of `sendTimestamp`, starting from the clock's timestamp. Each call receives the previous call's result. |
| `Stamping.StampLastTimestamp` | packages/evolu/src/send.ts:49-60 | The timestamp returned with the messages is the last one issued. The final message carries its string form. |
| `Stamping.StampFailure` | packages/evolu/src/send.ts:45-48 | Stamping fails exactly when the chain of calls fails. Its error is the one returned by the first failing call, and every call before that call succeeded. |
| `Stamping.StampIncreasing` | packages/evolu/src/send.ts:47-49 | Suppose `sendTimestamp` always issues a timestamp later in (millis, counter) order than its input. Then the timestamps of a batch strictly increase, and all are later than the clock's timestamp. |
| `Stamping.StampDistinctTimestamps` | packages/evolu/src/send.ts:51-51 | Suppose also that `timestampToString` is injective. Then no two messages of a batch carry the same timestamp string. |
| `SendPipeline.Send` | packages/evolu/src/send.ts:63-122 | The steps run in pipeline order, each at most once, starting with reading the clock. A clock-read failure or a timestamp failure returns that error, and no other step runs. `applyMessages` gets the loaded tree and the stamped batch. An apply failure stops the pipeline before `updateClock`. `updateClock` gets the new tree and the last stamped timestamp. Its failure stops sync and query. Sync gets the configured URL, some(stamped batch), the new clock, the owner and no diff hint. `query` runs last with the caller's queries and callback ids, and its outcome is `send`'s outcome; `query` can fail, because line 121 chains it with `chainW`. The sync request is built by `SendPipeline.CallSync` (lines 63-80). |

## Left out

- The bodies of `sendTimestamp`, `timestampToString`, `readClock`,
  `applyMessages`, `updateClock` and `query` are not part of this model.
  Their files (`timestamp.ts`, `readClock.ts`, `applyMessages.ts`,
  `updateClock.ts`, `query.ts`) are not covered. They are fields of `Env`,
  taken as given. So the hybrid-logical-clock arithmetic (drift and counter
  overflow checks) and the merkle tree are not modelled.
- `Stamping.StampIncreasing` and `Stamping.StampDistinctTimestamps` assume
  that `sendTimestamp` increases its input. Strict monotonicity cannot be
  proved without the body of `sendTimestamp`.
- The reader/task/either composition is modelled as sequential code with
  early return. This covers `pipe`, `chainW`, `chainFirstW`,
  `chainReaderTaskKW`, `fromReaderEither` and `task.fromIO`.
- Posting to the sync worker appears only as a `Sync` event. The same holds
  for the database, the rows cache and the worker output channel. None of
  these are modelled beyond the trace.
- Asynchrony is not modelled: each step runs after the previous one's result
  is known. Mutual exclusion between concurrent sends on one replica is not
  modelled either, because it is handled outside `send.ts`.
- The database state is fixed for one send. Each database operation's outcome
  depends only on its arguments.
- `Millis` and the timestamp counter are unbounded naturals. Their machine
  widths matter only inside `sendTimestamp`, which is not modelled.
- The owner, a cell value, the merkle tree and the sync worker's diff hint
  are opaque types. Their definitions are not part of this model.
- `sendTimestamp` calls after a failing one are not modelled. The model
  stops the batch at the first failing call. The traverse at line 45 of
  `send.ts` may still run the remaining elements, each retrying from the last
  successful timestamp. Either way the outcome is the first failure, and that
  is what the model states.
