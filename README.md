# PingPongBot reconciliation engine, modelled in Dafny

PingPongBot watches a contract for `Ping` events. For each event it sends a
`pong(pingTxHash)` transaction from a single wallet, and it replaces that transaction at the
same nonce while it stays unmined. One path sends a second Pong for the same event; see the
exceptions line under "Left out". Its engine is:

- a persisted state record with a block/log-index cursor;
- a bounded "recently processed" window of event keys (`blockHash:logIndex`);
- at most one outstanding transaction (`pendingTx`);
- a wait loop that resolves that transaction, replacing it at the same nonce with bumped
  fees when it goes stale;
- a scan tick that fetches a confirmed block range, sorts it and dispatches the events in
  order.

This project models that engine, with the chain client replaced by an oracle, and proves
its contracts.

Module layout, one file each:

| module | file | models |
|---|---|---|
| `Common` | common.dfy | `Option`, `Min`, `Max` |
| `Config` | config.dfy | the configuration record and its defaults (src/config.ts) |
| `State` | state.dfy | the state record as the class `BotState`, the dedup window, the fresh state (src/state.ts) |
| `Fees` | fees.dfy | `bumpByPercent` and `computeFees` in exact integer arithmetic (src/fees.ts) |
| `Pending` | pending.dfy | `checkTxStatus` (src/pending.ts) |
| `Scanner` | scanner.dfy | log normalisation, `sortLogs` (in-place insertion sort on an array), the `getLogs` retry loop |
| `Handler` | handler.dfy | `waitForPendingTx` as a one-poll method plus a driver loop, and `handlePing` |
| `Index` | index.dfy | `mask`, the range arithmetic and dispatch loop of `scanOnce`, the start-up resume, the main loop |

The chain is an oracle, given as data:

- each poll of a wait reads one `Obs`: the receipts, the block height and, should a
  replacement be sent, the base fee, the broadcast hash and the block read after it;
- a first submission reads one `Submission`;
- a scan tick reads one `Tick`: the head, the answer of the k-th `getLogs` query, the
  jitter of each backoff, and the oracle for each dispatch.

Two ghost fields of `BotState` record what the engine does to the outside world:

- `persisted` is every document written by `writeState`;
- `broadcasts` is every Pong sent, first submissions and replacements alike.

A `Trace` is the state value together with these two logs. Every engine step is
proved against a function or predicate on traces, and lemmas state what that reference
means:

- `PollOnce` against `PollEffect` of `Decide`;
- `WaitForPendingTx` against `Await` (`WaitEffect`);
- `HandlePing` and `ProcessPing` against `PingEffect`;
- the dispatch loop against `BatchRun` (a fold `Walk` of `PingEffect` over the batch);
- `ScanOnce` against `Scanned`;
- a main-loop tick against `TickRan`, and the ticks against `TicksRan`;
- the start-up resume against `ResumedTo`.

The two lower-level state changes are specified differently: `State.BotState.MarkProcessed`
against `MarkedKeys` on the key window, and `Scanner.SortLogs` by order and permutation.

`Advanced` is the step-forward relation: the start block is kept, the cursor never moves
back, both logs only grow, and a sound dedup window stays sound. It is proved of every
step, for batch sizes of at least 1 where a scan is involved (`PingEffectAdvances`, `BatchRunMeans`, `ScannedAdvances`, `TicksRanAdvance`,
`ResumedToMeans`).

Five behaviours of the source are modelled as written:

- **A snapshot that is never refreshed.** `waitForPendingTx` reads `state.pendingTx` once.
  Every later poll of the same wait looks up the snapshot's hash and measures staleness
  from its block. The budget check and the fee floor of every replacement also use the
  snapshot. So within one wait every replacement has replacement count
  `snapshot.replacements + 1`, and the budget is never reached while the snapshot itself
  stays unmined (`Handler.SnapshotBudgetNeverReached`). No growth of fees along a chain of
  replacements is claimed.
- **The cursor only jumps on a batch with no logs at all.** A non-empty batch whose logs are
  all skipped leaves the cursor where it was. After a non-empty batch that did not stall,
  the cursor is on the last handled log, or where it was when none was handled
  (`Index.BatchRunMeans`, `Index.ReplayMeans`).
- **A batch size below 1 moves the cursor back.** The configuration accepts any number.
  With a batch size of 0 the batch ends at the cursor's own block, and an empty answer
  sets the cursor from `(block, i)` with `i >= 0` back to `(block, -1)`; the same empty
  range is then queried on every tick (`Index.ZeroBatchSizeMovesCursorBack`). The
  step-forward lemmas about scans therefore assume a batch size of at least 1.
- **A batch of only already-handled events is rescanned.** When a resumed wait resolves,
  the event's key is marked but the cursor stays before the event. If that event is the
  only log of its batch, it is `AlreadyProcessed`. The batch is not empty, so the cursor
  does not jump, and nothing was handled, so it does not move (`Index.ReplayMeans`: with
  no handled log, the replay ends on the document it started from). The same range is
  scanned again on every tick until another Ping arrives within `batchSize` blocks.
- **The next range starts one block after the cursor's block.** A restart after a write
  that stopped partway through a block does not scan the rest of that block again
  (`Index.ScanRangeBounds`: `lastProcessedBlock < fromBlock`).

## Model

| member | source | states |
|---|---|---|
| State.IndexOf | src/state.ts:54 | `indexOf`: the position of the first occurrence of the key, or -1 exactly when the key is absent |
| State.RemoveFirst | src/state.ts:54-55 | `indexOf` + `splice(idx, 1)`: an absent key leaves the list as it is; a present one shortens it by one; nothing new appears |
| State.Without | src/state.ts:54-61 | reference definition of the window without a key: membership is exactly "in the list and not the key" |
| State.LastN | src/state.ts:59-61 | the front trim keeps exactly the last `min(n, cap)` entries |
| State.RemoveFirstNoDup | src/state.ts:54-55 | on a list without duplicates, removing the first occurrence keeps it duplicate-free, removes the key entirely and equals `Without` |
| State.RemoveFirstAt | src/state.ts:54-55 | splicing out the first occurrence at its index is `RemoveFirst` |
| State.SpliceIsRemoveFirst | src/state.ts:54-55 | the `indexOf`/`splice` pair as written (no splice when -1) is `RemoveFirst` |
| State.FreshSnapshot | src/state.ts:31-36 | the fallback document of `readState` (definition; its property is `State.FreshCursorPrecedesStart`) |
| State.MarkedKeys | src/state.ts:50-62 | `markProcessed` on values (definition; its properties are the `State.MarkedKeys…` rows below) |
| State.MarkedKeysEndsWithKey | src/state.ts:50-61 | after marking, the key is the last element whenever the capacity is at least 1 |
| State.MarkedKeysUnchangedWhenLast | src/state.ts:52 | marking the key that is already last changes nothing |
| State.MarkedKeysNoDup | src/state.ts:54-61 | marking keeps a duplicate-free window duplicate-free |
| State.MarkedKeysNoGrowth | src/state.ts:54-57 | re-marking a present key does not grow the window |
| State.MarkedKeysBounded | src/state.ts:59-61 | a window within the capacity stays within it; the early return skips the trim, hence the precondition |
| State.MarkedKeysIsMoveToBack | src/state.ts:54-61 | on a sound window, marking is "all other keys in their order, then the key", cut to the last `cap` entries: eviction is from the front |
| State.MarkedKeysMembers | src/state.ts:50-61 | only the marked key can enter the window |
| Common.CursorLess | src/handler.ts:103-105 | `(b1, i1)` is strictly before `(b2, i2)`: an earlier block, or the same block and a smaller log index (definition) |
| State.FreshCursorPrecedesStart | src/state.ts:31-36 | the fresh cursor `(startBlock - 1, -1)` is before every position from the start block on, so no in-range event is skipped as "not after the cursor" |
| State.AdvancedTransitive | src/index.ts:74-83 | two steps forward (start block kept, cursor not moved back, logs grown, window kept sound) are one step forward |
| State.BotState.Load | src/state.ts:26-38 | `readState`: the stored document when there is one; otherwise the start block, cursor `(startBlock - 1, -1)`, no keys, no pending transaction, and a sound window for every capacity |
| State.BotState.WasProcessed | src/state.ts:46-48 | true exactly when the key occurs in the window |
| State.BotState.MarkProcessed | src/state.ts:50-62 | the imperative early return / `splice` / `push` / front trim produces `MarkedKeys` of the old window; its frame is the window alone, so cursor, start block and pending transaction are untouched |
| State.BotState.WriteState | src/state.ts:40-44 | the current state value is appended to the log of persisted documents |
| Fees.BumpByPercent | src/fees.ts:14-17 | multiply by `(100 + percent) * 1000` and divide by 100000, truncating as bigint division does (definition; its properties are the next three rows) |
| Fees.BumpTwelveIsFloor | src/fees.ts:14-17 | `bumpByPercent(v, 12)` is `v * 112000 / 100000`, which is `floor(v * 112 / 100)` |
| Fees.BumpNotBelow | src/fees.ts:14-17 | bumping never lowers a non-negative value |
| Fees.BumpRaisesIff | src/fees.ts:14-17 | bumping strictly raises a non-negative value exactly when it is at least 9 wei |
| Fees.ComputeFees | src/fees.ts:19-38 | without a prior: tip = configured fee and cap = `2 * baseFee + tip`; with a prior: each field is the larger of the baseline and the bumped prior field |
| Fees.BaseFeeOrDefault | src/fees.ts:24 | the latest base fee, or 1 gwei when the block reports none (definition; see the next row) |
| Fees.MissingBaseFeeIsOneGwei | src/fees.ts:24 | a missing base fee prices exactly like a base fee of 10^9 wei |
| Fees.BaselineCapCoversTip | src/fees.ts:26-27 | without a prior and for non-negative inputs, the fee cap is at least the tip |
| Fees.ReplacementOutbidsPrior | src/fees.ts:29-35 | a replacement is never below its prior in either field, and strictly above it in every field of at least 9 wei |
| Fees.FieldsIndependent | src/fees.ts:33-34 | the cap does not depend on the prior tip, and the tip does not depend on the prior cap |
| Pending.CheckTxStatus | src/pending.ts:11-30 | confirmed exactly when a receipt with a status exists, carrying that receipt; stuck exactly when there is none and the wait reached the threshold; pending otherwise |
| Pending.ReceiptConfirms | src/pending.ts:18-19 | any receipt with a status, success or revert, confirms however many blocks have passed |
| Pending.StuckPersists | src/pending.ts:22-26 | without a usable receipt, stuck at one height means stuck at every later height |
| Pending.StuckBoundary | src/pending.ts:25 | sent at 100 with threshold 12: block 111 is pending and block 112 is stuck |
| Scanner.ToLower | src/scanner.ts:39 | same length, and every character lower-cased |
| Scanner.ToLowerIdempotent | src/scanner.ts:39 | lower-casing a normalised address changes nothing |
| Scanner.Normalize | src/scanner.ts:38-46 | the mapping of one raw log (definition; its field-by-field statement is the contract of `Scanner.NormalizeAll`) |
| Scanner.NormalizeAll | src/scanner.ts:38-46 | one event per raw log in the same order: address lower-cased, `index` becomes `logIndex`, every other field kept |
| Scanner.SortLogs | src/scanner.ts:73-80 | the array ends ascending by `(blockNumber, logIndex)` and is a permutation of the input |
| Scanner.BackoffDelay | src/scanner.ts:49 | `min(15000, 1000 * 2^attempt)` (definition; its bounds are `Scanner.BackoffBounds`) |
| Scanner.BackoffBounds | src/scanner.ts:49 | the backoff after failed attempt k ≥ 1 lies in [2000, 15000] ms and is the 15000 ms cap from k = 4 on |
| Scanner.GetLogs | src/scanner.ts:20-71 | 1 to 10 queries; every query before the last failed; success returns the normalised answer of the last query; giving up means all ten failed; one sleep per failure except the last, each `min(15000, 1000 * 2^k)` plus its jitter, in [2000, 15499] |
| Handler.ReplacementFor | src/handler.ts:61-81 | the record written after a replacement outbids the snapshot and keeps its nonce, event and argument with count + 1; its hash and block come from the broadcast; its fees are exactly `computeFees` with the snapshot's fees as the prior |
| Handler.Decide | src/handler.ts:24-84 | for the snapshot: resolve exactly on confirmation, or on stale with the budget spent; replace exactly on stale below budget; succeeded exactly on status 1; abandoned exactly on the budget branch; a replacement keeps nonce, key and argument, has count + 1 and fees at least the bumped snapshot fees |
| Handler.LatestIsSnapshotOrReplacement | src/handler.ts:21-84 | within one wait, the record in the slot is always the snapshot or a direct replacement of it |
| Handler.SnapshotBudgetNeverReached | src/handler.ts:21-84 | while the snapshot's hash has no receipt and it is stale, every poll replaces again with count `snapshot + 1`, and none abandons |
| Handler.PollEffect | src/handler.ts:26-84 | what one decision does to a trace: a resolution marks the snapshot's key and empties the slot; a replacement is broadcast, put in the slot and persisted; waiting changes nothing (definition; carried out by `Handler.PollOnce`) |
| Handler.PollOnce | src/handler.ts:24-84 | one loop iteration carries out `Decide` (`PollEffect`): a resolution marks the key and clears the slot without persisting; a replacement is broadcast, put in the slot and persisted; waiting changes nothing |
| Handler.FirstResolving | src/handler.ts:23-84 | the position of the first poll whose decision resolves the snapshot: no earlier poll resolves, and it resolves when it is within the polls |
| Handler.ReplacementsReplace | src/handler.ts:61-81 | every record the polls of one wait broadcast replaces the snapshot |
| Handler.ReplacementDocs | src/handler.ts:83 | one persisted document per replacement, the document with that replacement in its slot |
| Handler.WaitEffect | src/handler.ts:21-88 | the polls carried out in order up to and including the first resolving one, which gives the resolution; `StillPending` when none resolves (definition; its meaning is `Handler.WaitEffectMeans` and `Handler.WaitEffectLogs`) |
| Handler.Await | src/handler.ts:13-88 | `waitForPendingTx` on a trace: nothing when the slot is empty, otherwise `WaitEffect` on the record in the slot (definition) |
| Handler.WaitSoFarValue | src/handler.ts:23-84 | unresolving polls change only the slot, which ends holding the latest replacement |
| Handler.WaitSoFarLogs | src/handler.ts:61-83 | unresolving polls broadcast exactly the replacements they decide, each persisted once |
| Handler.WaitEffectMeans | src/handler.ts:23-84 | a wait resolves exactly at the first resolving poll, with that decision's resolution, the key marked, the slot empty and nothing else changed; otherwise every poll is unresolving and the slot holds the snapshot or its latest replacement; a sound window stays sound |
| Handler.WaitEffectLogs | src/handler.ts:61-83 | the polls of a wait before the first resolving one broadcast exactly the replacements they decide (each a replacement of the snapshot), each followed by one write of the document with it in the slot |
| Handler.WaitForPendingTx | src/handler.ts:13-88 | the loop over the polls yields `Await`: nothing pending changes nothing; otherwise the outcome and the new trace are those of `WaitEffect`, whose meaning is `WaitEffectMeans` and `WaitEffectLogs` |
| Handler.NatToString | src/handler.ts:97 | the decimal spelling of a natural number: at least one digit, digits only, a single digit exactly below ten |
| Handler.IntToString | src/handler.ts:97 | the spelling of an integer in a template literal: `-` then the digits for a negative one (definition; see `Handler.IntToStringInjective`) |
| Handler.NatToStringInjective | src/handler.ts:97 | different numbers have different decimal spellings |
| Handler.IntToStringInjective | src/handler.ts:97 | different integers have different spellings as a template literal writes them |
| Handler.EventKey | src/handler.ts:97 | the key `blockHash:logIndex` (definition; see the next row) |
| Handler.EventKeyInjective | src/handler.ts:97 | for block hashes of one length, different events (block or log index) have different keys |
| Handler.NewPendingTx | src/handler.ts:124-138 | the record of a first submission: count 0, the event's key, its transaction hash as argument, nonce, hash and block from the chain, the configured tip, and a fee cap covering the tip for non-negative inputs |
| Handler.PingEffect | src/handler.ts:90-146 | `handlePing` on a trace: a known key, then a position not after the cursor, are skipped; otherwise `Await` on the leftover, the new record submitted, `Await` on it, and the cursor moved onto the event once resolved (definition; its meaning is the `Handler.PingEffect…` rows) |
| Handler.PingEffectDecides | src/handler.ts:97-145 | as an if-and-only-if per outcome: a known key is `AlreadyProcessed`; a new key not after the cursor is `NotAfterCursor`, and both skips change nothing; a new key after the cursor stalls on the leftover exactly when there is one and none of its polls resolves it, stalls on its own Pong exactly when none of its polls resolves it, and is otherwise `Handled` with the resolution of the first own poll that resolves |
| Handler.SingleFlightAt | src/handler.ts:120-140 | the two waits around the submission compose to the single-flight order of broadcasts: the leftover's replacements, the new record, then its replacements |
| Handler.PingEffectSends | src/handler.ts:120-145 | the logs only grow; a stall on the leftover sends only its replacements; an event whose own Pong was sent is in single flight, and that Pong has count 0, the event's key and the event's transaction hash as argument |
| Handler.PingEffectLeaves | src/handler.ts:120-145 | a handled event ends with the slot empty, its key marked after the leftover's and the cursor on the event; a stall keeps a record in the slot; only a handled event moves the cursor; the start block stays and a sound window stays sound |
| Handler.PingEffectAdvances | src/handler.ts:90-146 | dispatching an event is a step forward (`Advanced`) |
| Handler.LeftoverOfSameEventResubmitted | src/handler.ts:120-138 | when the leftover belongs to the event being dispatched and the leftover's wait resolves, the event's key is already marked when a second Pong for the same event is submitted; a handled event leaves the window as that resolution left it |
| Handler.SubmitPong | src/handler.ts:124-138 | the first submission broadcasts the new record and fills the slot with it; nothing is persisted |
| Handler.HandlePing | src/handler.ts:90-146 | the outcome and the new trace are `PingEffect` of the old trace, whose meaning is the `PingEffect…` rows; `submitted` is the new record exactly when one was sent |
| Handler.ProcessPing | src/handler.ts:120-145 | for a new event after the cursor: wait on the leftover, submit, wait on the new record, move the cursor; the outcome and trace are `PingEffect`'s |
| Index.Mask | src/index.ts:9-12 | up to `2k` characters: first character and `…`; longer: first `k`, `...`, last `k`; with `k = 0` the whole value follows `...` |
| Index.MaskHidesMiddle | src/index.ts:9-12 | with the default 4, a secret longer than 8 characters shows 11 characters: its first and last four |
| Index.ScanRange | src/index.ts:92-101 | `toBlock = max(startBlock, latest - confirmations)` and `fromBlock = max(lastProcessedBlock + 1, startBlock)`; no range exactly when `fromBlock > toBlock`; otherwise `batchEnd = min(fromBlock + batchSize - 1, toBlock)` |
| Index.ScanRangeBounds | src/index.ts:93-101 | a range starts after the cursor's block and at or after the start block, ends at or before the confirmed head, and spans 1 to `batchSize` blocks |
| Config.Defaults | src/config.ts:49-65 | the defaults of every optional setting (definition; used by `Index.ScanRangeExample`) |
| Index.ScanRangeExample | src/index.ts:93-101 | a fresh state at block 100 with head 113 and the default configuration scans exactly [100, 110] |
| Index.FilterAddress | src/index.ts:108-109 | the dispatched logs are exactly those of the configured address, in batch order |
| Index.FilterAddressStep | src/index.ts:108-109 | one log more adds it to the dispatched logs exactly when it has the contract's address |
| Index.FilterKeepsSorted | src/index.ts:106-109 | filtering a sorted batch keeps it sorted |
| Index.FetchBatch | src/index.ts:105-106 | `getLogs` then `sortLogs`: the batch is the sorted permutation of the normalised answer of the first successful query, or nothing after ten failures |
| Index.LastHandled | src/index.ts:108-113 | the index of the last handled dispatch, or -1 exactly when none was handled |
| Index.LastHandledSnoc | src/index.ts:108-113 | one more dispatch is the last handled one exactly when it was handled |
| Index.CursorAfterLast | src/handler.ts:142-143 | the last dispatch of a run puts the cursor on its log when handled, and leaves it where the rest of the run put it otherwise |
| Index.AfterDispatchMeans | src/handler.ts:97-145 | an outcome `AfterDispatch` allows is settled: a skip keeps the document, a handled log is strictly after the old cursor and ends with the cursor on it and the slot empty. `AfterDispatch` is `handlePing`'s guards on the document: a known key is `AlreadyProcessed`; a new key not after the cursor is `NotAfterCursor`; a new key after it is `Handled`, with the leftover resolved, the key marked after the leftover's, the slot empty and the cursor on the log |
| Index.ReplaySnoc | src/index.ts:108-113 | replaying one dispatch more is applying `AfterDispatch` to the replay so far |
| Index.ReplayMeans | src/index.ts:108-113 | a possible replay (`Replay` folds `AfterDispatch` over the dispatches): every outcome is settled; the cursor ends on the last handled log or where it started, and never moves back; the start block is kept; a run with a handled log ends with the slot empty; one without ends on the document it started from |
| Index.SettledPrefix | src/index.ts:108-113 | settled outcomes before the last, and a settled last, make a settled run |
| Index.PingEffectAgrees | src/handler.ts:97-145 | whenever `handlePing` settles an event, the document it leaves is the one the reference guards `AfterDispatch` allow for that outcome |
| Index.Walk | src/index.ts:108-113 | the `for` loop over a batch: another address is passed over; a contract log goes through `PingEffect` with that position's answers and the state is then written; nothing when a dispatch does not settle (definition; see `Index.WalkReplays`, `Index.WalkPersists`) |
| Index.WalkStep | src/index.ts:108-113 | one log more in the loop: another address is passed over; a contract log goes to `handlePing` and, when settled, the state is persisted |
| Index.WalkReplays | src/index.ts:108-113 | a completed run of the loop has one outcome per contract log, and they are the outcomes the reference guards allow, one after the other (`Replay`), ending on the document the run leaves |
| Index.WalkPersists | src/index.ts:108-113 | a completed run persisted at least once per dispatch (replacements persist too), the last write being the final document, and is a step forward |
| Index.BatchRun | src/index.ts:108-113 | where the loop got to: the logs before `reached` walked through; a stalled run stopped at a contract log whose `PingEffect` does not settle, with the trace that call left (definition; see `Index.BatchRunMeans`) |
| Index.BatchRunMeans | src/index.ts:108-113 | a run of the dispatch loop (`BatchRun`: the logs before `reached` walked through, and a stalled run stopped at a contract log whose `handlePing` does not settle) is a step forward; a run that did not stall ends on the replayed document, with the cursor on the last handled log or unchanged |
| Index.Scanned | src/index.ts:86-123 | `scanOnce` between two traces: no range exactly when `fromBlock > toBlock`; `QueryFailed` exactly when all ten queries fail; otherwise a sorted permutation of the normalised first answer; an empty batch sets the cursor to `(batchEnd, -1)`; a non-empty one is a `BatchRun` (definition; the contract of `Index.ScanOnce`) |
| Index.ScannedAdvances | src/index.ts:94-118 | for batch sizes of at least 1, a scan (`Scanned`) is a step forward, and an empty batch strictly raises `lastProcessedBlock` |
| Index.ZeroBatchSizeMovesCursorBack | src/index.ts:101-117 | with a batch size of 0 and a cursor on a log, an empty answer moves the cursor back to `(cursor block, -1)` |
| Index.EmptyBatchExample | src/index.ts:115-118 | with the defaults, a fresh state at block 100, head 113 and an empty first answer: one query, and the cursor becomes `(110, -1)` with nothing else changed |
| Index.ScannedNoRange | src/index.ts:96-99 | no range: nothing to scan, nothing changes |
| Index.ScannedQueryFailed | src/index.ts:105 | all ten queries failed: nothing changes |
| Index.ScannedFetched | src/index.ts:105-118 | a fetched batch with its dispatch run, or the jump of an empty batch, is a scan |
| Index.ScanOnce | src/index.ts:86-123 | `Scanned`: no range exactly when the cursor is past the confirmed head, and then nothing changes; `QueryFailed` exactly when all ten queries for the range fail, and then nothing changes; otherwise the batch is the sorted permutation of the normalised answer of the first answering query; an empty batch moves only the cursor, to `(batchEnd, -1)`; a non-empty one is a `BatchRun` of `handlePing` over its contract logs in order; the dispatched logs are sorted |
| Index.DispatchedSorted | src/index.ts:106-113 | every prefix of a sorted batch, filtered, is sorted |
| Index.DispatchOne | src/index.ts:111-112 | `handlePing` then `writeState`: the outcome and trace are `PingEffect`'s; stalled exactly when the outcome is a wait that ran out, and then nothing is written; otherwise the resulting document is written |
| Index.DispatchBatch | src/index.ts:108-113 | the loop is a `BatchRun`: the contract logs are dispatched in batch order through `PingEffect`, each persisted; it stops early only at a contract log whose `handlePing` does not settle, with the state that call left; otherwise every log is reached |
| Index.ResumedTo | src/index.ts:54-58 | the resume: `Await` on the loaded state, then a write once resolved (definition; its meaning is `Index.ResumedToMeans`) |
| Index.ResumedToMeans | src/index.ts:54-58 | a resume waits exactly when a record was loaded and otherwise changes nothing; a resolved one persisted, last, a document with an empty slot, the loaded key marked and the cursor unchanged; a stalled one keeps a record in the slot; it is a step forward |
| Index.Resume | src/index.ts:54-58 | `ResumedTo`: the loaded record is waited on as `WaitForPendingTx` does (`Await`), and the state is written once the wait resolved it |
| Index.TickRan | src/index.ts:76-81 | one main-loop iteration: a `Scanned` tick, then a write unless the query failed or a wait stalled (definition) |
| Index.TickRanAdvances | src/index.ts:75-81 | for batch sizes of at least 1, a tick is a step forward |
| Index.ScanTick | src/index.ts:76-81 | `TickRan`: a `ScanOnce` (`Scanned`) followed by a write unless the query failed (the scan throws) or it stalled |
| Index.TicksRanAdvance | src/index.ts:75-83 | for batch sizes of at least 1, a run of ticks is a step forward from the first trace to the last |
| Index.TicksRan | src/index.ts:75-83 | a run of ticks through a trail of traces: tick `i` is a `TickRan` from trace `i` to trace `i + 1` (definition) |
| Index.TicksRanSnoc | src/index.ts:75-83 | one tick more, run on the trace the last one left, extends a run of ticks |
| Index.ScanTicks | src/index.ts:75-83 | `TicksRan`: tick `i` is a `TickRan` on the trace tick `i - 1` left, starting on the old state and ending on the new one; all ticks run unless one stalls, which is then the last |
| Index.Run | src/index.ts:54-83 | `ResumedTo` from the loaded state to the start of the ticks; a stalled resume runs no tick; otherwise the ticks are `TicksRan` and `TicksEnded`; the final state is written unless a wait stalled |

## Left out

- File I/O of `readState`/`writeState` (JSON, the temp file and rename): a loaded document is an `Option<Snapshot>` parameter of `Load`, and a write appends to the ghost log `persisted`. The shape of stored JSON is not validated, and neither is it in the source.
- The RPC client, the wallet and the contract object (src/provider.ts, src/tx.ts, src/topics.ts, src/address.ts are not part of this model): their answers are the oracle data `Obs`, `Submission` and `Tick`, and `submitPongTx`/`replacePongTx` are folded into `SubmitPong` and `PollOnce`.
- Exceptions other than `getLogs` giving up: a failing receipt lookup, block read, nonce read or broadcast is not modelled, so the oracle always answers. In the source such an exception inside a wait reached from `scanOnce` is caught by the main loop (src/index.ts:79-81). An exception in the start-up resume (src/index.ts:56) is outside any `try`: it rejects `main()`, which nothing handles (src/index.ts:125), and the process ends; `Index.Resume` and `Index.Run` do not model this. An example is a same-nonce broadcast after a replacement was already mined, which the never-refreshed snapshot makes likely. After the catch, `pendingTx` stays in the in-memory state and the cursor has not advanced. When the rescanned event is that leftover's own event, `handlePing` resolves the leftover, which marks the key, and then submits a second Pong for the same event with a fresh nonce, because src/handler.ts:120-138 do not check `wasProcessed` again. The model's `Run` never reaches this path, since no exception is raised; `Handler.LeftoverOfSameEventResubmitted` states what `ProcessPing` does on it.
- Duplicate-broadcast and stale-nonce errors, and a write right after the first submission: the source has none of these.
- The configuration loader (src/config.ts): configuration values are the `BotConfig` parameter; `parseUnits` of the priority fee is an integer in wei. The loader lower-cases the contract address (src/config.ts:52-55), which `Walk` compares with the lower-cased log addresses; `BotConfig` does not enforce this. The window size `recentSetSize` is taken to be a natural number, whereas the loader accepts any number: a negative size empties the window like 0, and a fractional one keeps one entry more.
- Timers, `sleep`, signals and `process.exit`. The 500 ms shutdown timer can fire between any two steps; the model performs the final write only after the last tick.
- `Math.random`: the backoff jitter is the parameter `jitter`, bounded to [0, 500). `Math.pow` and `Math.round` are integer powers of two and the exact multiplier 112000.
- Logger calls and the start-up connectivity probe.
- WaitForPendingTx: the source polls for ever; the model stops when its observations run out and reports `StillPending`. `HandlePing` reports this as `PriorStillPending` or `OwnStillPending`, and `ScanOnce`, `ScanTick` and `Run` as `Stalled` (each defined through `PingEffect`). Nothing is claimed about a wait that never resolves.
- ScanOnce: the tick is modelled to return, with `Stalled`, as soon as a wait runs out of observations; the source would still be waiting inside that dispatch.
- SortLogs: stability of `Array.prototype.sort` is not stated, only order and permutation; logs at equal positions do not occur on a chain.
- ToLower: only ASCII letters are lower-cased; contract addresses are hexadecimal.
- Mask: `value.length` and `slice` count UTF-16 code units, the model counts sequence elements; the two agree on the ASCII secrets the source masks.
- Run: the ticks are a finite sequence of oracle answers, not an unbounded `while (!stopping)` loop.
- JavaScript numbers are modelled as unbounded integers; block numbers and log indices stay far below 2^53.
