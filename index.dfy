/** The scan tick, the startup resume and the main loop of the bot (src/index.ts). */
module Index {
  import opened Common
  import opened Config
  import opened State
  import opened Scanner
  import opened Handler

  // ----- masking secrets in the start-up log line -----

  /** `mask(value, visible)`: a short value shows its first character and an ellipsis
      character; a longer one its first and last `visible` characters around "...". With
      `visible` zero the slice `value.slice(-0)` is the whole value. */
  function Mask(value: string, visible: nat := 4): (r: string)
    ensures |value| <= 2 * visible ==>
      && |r| == Min(|value|, 1) + 1 && r[|r| - 1] == '…'
      && (|value| > 0 ==> r[0] == value[0])
    ensures |value| > 2 * visible && visible > 0 ==>
      && |r| == 2 * visible + 3
      && r[..visible] == value[..visible]
      && r[visible..visible + 3] == "..."
      && r[visible + 3..] == value[|value| - visible..]
    ensures |value| > 0 && visible == 0 ==> r == "..." + value
  {
    if |value| <= visible * 2 then value[..Min(|value|, 1)] + "…"
    else value[..visible] + "..." + (if visible == 0 then value else value[|value| - visible..])
  }

  /** A masked secret longer than eight characters shows only its first and last four. */
  lemma MaskHidesMiddle(value: string)
    requires |value| > 8
    ensures var r := Mask(value);
      |r| == 11 && r[..4] == value[..4] && r[7..] == value[|value| - 4..]
  {
  }

  // ----- block range of a tick -----

  /** The block range of one batch. */
  datatype Range = Range(fromBlock: int, batchEnd: int)

  /** The range `scanOnce` scans (src/index.ts:92-101), or none when there is no confirmed
      block past the cursor. */
  function ScanRange(startBlock: int, lastProcessedBlock: int, latestBlock: int,
                     confirmations: int, batchSize: int): (r: Option<Range>)
    ensures var toBlock := Max(startBlock, latestBlock - confirmations);
      var fromBlock := Max(lastProcessedBlock + 1, startBlock);
      && (r.None? <==> fromBlock > toBlock)
      && (r.Some? ==> r.value.fromBlock == fromBlock
                      && r.value.batchEnd == Min(fromBlock + batchSize - 1, toBlock))
  {
    var toBlock := Max(startBlock, latestBlock - confirmations);
    var fromBlock := Max(lastProcessedBlock + 1, startBlock);
    if fromBlock > toBlock then None
    else Some(Range(fromBlock, Min(fromBlock + batchSize - 1, toBlock)))
  }

  /** A scanned batch starts after the cursor and at or after the start block, ends at or
      before the confirmed head, and spans between one and `batchSize` blocks. */
  lemma ScanRangeBounds(startBlock: int, lastProcessedBlock: int, latestBlock: int,
                        confirmations: int, batchSize: int)
    requires batchSize >= 1
    requires ScanRange(startBlock, lastProcessedBlock, latestBlock, confirmations, batchSize).Some?
    ensures var r := ScanRange(startBlock, lastProcessedBlock, latestBlock, confirmations, batchSize).value;
      && startBlock <= r.fromBlock <= r.batchEnd
      && lastProcessedBlock < r.fromBlock
      && r.batchEnd <= Max(startBlock, latestBlock - confirmations)
      && r.batchEnd - r.fromBlock + 1 <= batchSize
  {
  }

  /** With the default configuration (three confirmations, batches of 2000 blocks), a
      fresh state at block 100 and head 113 scans exactly [100, 110]. */
  lemma ScanRangeExample()
    ensures var cfg := Defaults(100);
      ScanRange(cfg.startBlock, cfg.startBlock - 1, 113, cfg.confirmations, cfg.batchSize)
      == Some(Range(100, 110))
  {
  }

  // ----- address filter -----

  /** The logs the loop dispatches: those whose address is the configured contract's, in
      their order. */
  function FilterAddress(logs: seq<LogEvent>, address: string): (r: seq<LogEvent>)
    ensures |r| <= |logs|
    ensures forall e :: e in r <==> e in logs && e.address == address
  {
    if logs == [] then []
    else
      var last := logs[|logs| - 1];
      assert logs == logs[..|logs| - 1] + [last];
      FilterAddress(logs[..|logs| - 1], address) + (if last.address == address then [last] else [])
  }

  /** Filtering a prefix one log longer adds that log exactly when it has the address. */
  lemma FilterAddressStep(logs: seq<LogEvent>, i: nat, address: string)
    requires i < |logs|
    ensures FilterAddress(logs[..i + 1], address)
         == FilterAddress(logs[..i], address) + (if logs[i].address == address then [logs[i]] else [])
  {
    assert logs[..i + 1][..i] == logs[..i];
  }

  /** Filtering keeps the sorted order. */
  lemma {:induction false} FilterKeepsSorted(logs: seq<LogEvent>, address: string)
    requires SortedByPosition(logs)
    ensures SortedByPosition(FilterAddress(logs, address))
  {
    if logs != [] {
      var front := logs[..|logs| - 1];
      var last := logs[|logs| - 1];
      assert SortedByPosition(front);
      FilterKeepsSorted(front, address);
      var f := FilterAddress(front, address);
      forall k | 0 <= k < |f| ensures PosLeq(f[k], last) {
        assert f[k] in front;
      }
    }
  }

  // ----- one tick -----

  /** The chain's answers during one tick: the head, the log queries with their jitter, and
      the answers for the dispatch of the log at each position of the sorted batch. */
  datatype Tick = Tick(
    latestBlock: int,
    query: LogQuery,
    jitter: nat -> Jitter,
    handle: nat -> HandleOracle)

  /** How a tick ended: nothing to scan, the log query failed every attempt (`getLogs`
      throws), the batch was dispatched, or a wait ran out of observations. */
  datatype TickOutcome = NothingToScan | QueryFailed | BatchDone | Stalled

  /** `getLogs` then `sortLogs` on the result (src/index.ts:105-106): the batch is the
      answer of the first successful query, normalised and put in position order, or
      nothing when all ten queries failed. */
  method FetchBatch(query: LogQuery, fromBlock: int, toBlock: int, jitter: nat -> Jitter)
    returns (batch: Option<seq<LogEvent>>, queries: nat)
    ensures 1 <= queries <= MAX_ATTEMPTS
    ensures forall k :: 0 <= k < queries - 1 ==> query(fromBlock, toBlock, k).None?
    ensures batch.None? ==> queries == MAX_ATTEMPTS && query(fromBlock, toBlock, queries - 1).None?
    ensures batch.Some? ==>
      && query(fromBlock, toBlock, queries - 1).Some?
      && SortedByPosition(batch.value)
      && multiset(batch.value) == multiset(NormalizeAll(query(fromBlock, toBlock, queries - 1).value))
  {
    var fetched, n, _ := GetLogs(query, fromBlock, toBlock, jitter);
    queries := n;
    if fetched.GaveUp? {
      return None, queries;
    }
    var fetchedLogs := fetched.logs;
    var logs := new LogEvent[|fetchedLogs|](k requires 0 <= k < |fetchedLogs| => fetchedLogs[k]);
    assert logs[..] == fetchedLogs;
    SortLogs(logs);
    batch := Some(logs[..]);
  }

  // ----- the outcomes of a dispatch run -----

  /** An outcome after which the loop goes on to the next log: a skip, or a resolution. */
  predicate Settled(o: PingOutcome)
  {
    o == AlreadyProcessed || o == NotAfterCursor || o.Handled?
  }

  /** The position of the last handled dispatch, or -1 when none was handled. */
  function LastHandled(outcomes: seq<PingOutcome>): (j: int)
    ensures -1 <= j < |outcomes|
    ensures j >= 0 ==> outcomes[j].Handled?
    ensures forall k :: j < k < |outcomes| ==> !outcomes[k].Handled?
  {
    if outcomes == [] then -1
    else if outcomes[|outcomes| - 1].Handled? then |outcomes| - 1
    else LastHandled(outcomes[..|outcomes| - 1])
  }

  /** One outcome more: the last handled dispatch is the new one when it was handled. */
  lemma LastHandledSnoc(outcomes: seq<PingOutcome>, o: PingOutcome)
    ensures LastHandled(outcomes + [o]) == if o.Handled? then |outcomes| else LastHandled(outcomes)
  {
    assert (outcomes + [o])[..|outcomes|] == outcomes;
  }

  /** The cursor after a run of dispatches from the cursor `(block, logIndex)`: the position
      of the last handled log, or the cursor it started from when none was handled. */
  function CursorAfter(block: int, logIndex: int, dispatched: seq<LogEvent>,
                       outcomes: seq<PingOutcome>): (int, int)
    requires |dispatched| == |outcomes|
  {
    var j := LastHandled(outcomes);
    if j < 0 then (block, logIndex) else (dispatched[j].blockNumber, dispatched[j].logIndex)
  }

  /** The document after `HandlePing` returned `o` for `log` on the document `s`, or
      nothing when `HandlePing` cannot return `o` there. A known key is skipped; a new key at
      or before the cursor is skipped; a new key after the cursor is handled, which resolves
      any leftover, marks the key after the leftover's, empties the slot and moves the cursor
      onto the log. A stalling outcome settles nothing. */
  function AfterDispatch(s: Snapshot, log: LogEvent, o: PingOutcome, cap: nat): Option<Snapshot>
  {
    var key := EventKey(log.blockHash, log.logIndex);
    var known := key in s.recentProcessedKeys;
    var isAfterCursor := CursorLess(s.lastProcessedBlock, s.lastProcessedLogIndex, log.blockNumber, log.logIndex);
    match o
    case AlreadyProcessed => if known then Some(s) else None
    case NotAfterCursor => if !known && !isAfterCursor then Some(s) else None
    case Handled(_) =>
      if known || !isAfterCursor then None
      else Some(s.(lastProcessedBlock := log.blockNumber, lastProcessedLogIndex := log.logIndex,
                   recentProcessedKeys := MarkedKeys(KeysAfterResolving(s.pendingTx, s.recentProcessedKeys, cap), key, cap),
                   pendingTx := None))
    case _ => None
  }

  /** The document after the dispatches `dispatched` with the outcomes `outcomes`, one after
      the other from `s`, or nothing when one of the outcomes is not possible. */
  function Replay(s: Snapshot, dispatched: seq<LogEvent>, outcomes: seq<PingOutcome>, cap: nat): Option<Snapshot>
    requires |dispatched| == |outcomes|
  {
    if dispatched == [] then Some(s)
    else
      var n := |dispatched| - 1;
      var r := Replay(s, dispatched[..n], outcomes[..n], cap);
      if r.None? then None else AfterDispatch(r.value, dispatched[n], outcomes[n], cap)
  }

  /** What a possible run of dispatches amounts to: every outcome is settled; the cursor is
      on the last handled log, or where it started when none was handled, and never moves
      back; a run with a handled log ends with an empty slot; a run without one changes
      nothing. */
  lemma {:induction false} ReplayMeans(s: Snapshot, dispatched: seq<LogEvent>, outcomes: seq<PingOutcome>, cap: nat)
    requires |dispatched| == |outcomes|
    requires Replay(s, dispatched, outcomes, cap).Some?
    ensures forall i :: 0 <= i < |outcomes| ==> Settled(outcomes[i])
    ensures var t := Replay(s, dispatched, outcomes, cap).value;
      && (t.lastProcessedBlock, t.lastProcessedLogIndex)
         == CursorAfter(s.lastProcessedBlock, s.lastProcessedLogIndex, dispatched, outcomes)
      && CursorLeq(s.lastProcessedBlock, s.lastProcessedLogIndex, t.lastProcessedBlock, t.lastProcessedLogIndex)
      && t.startBlock == s.startBlock
      && (LastHandled(outcomes) >= 0 ==> t.pendingTx.None?)
      && (LastHandled(outcomes) < 0 ==> t == s)
  {
    if dispatched != [] {
      var n := |dispatched| - 1;
      var d, o := dispatched[..n], outcomes[..n];
      ReplayMeans(s, d, o, cap);
      var t0 := Replay(s, d, o, cap).value;
      assert Replay(s, dispatched, outcomes, cap) == AfterDispatch(t0, dispatched[n], outcomes[n], cap);
      AfterDispatchMeans(t0, dispatched[n], outcomes[n], cap);
      CursorAfterLast(s.lastProcessedBlock, s.lastProcessedLogIndex, dispatched, outcomes);
      SettledPrefix(o, outcomes);
    }
  }

  /** A run whose outcomes but the last are settled, and whose last is settled too. */
  lemma SettledPrefix(front: seq<PingOutcome>, outcomes: seq<PingOutcome>)
    requires |outcomes| > 0 && front == outcomes[..|outcomes| - 1]
    requires forall i :: 0 <= i < |front| ==> Settled(front[i])
    requires Settled(outcomes[|outcomes| - 1])
    ensures forall i :: 0 <= i < |outcomes| ==> Settled(outcomes[i])
  {
    forall i | 0 <= i < |outcomes|
      ensures Settled(outcomes[i])
    {
      if i < |front| {
        assert outcomes[i] == front[i];
      }
    }
  }

  /** One possible dispatch: its outcome is settled; a skip keeps the document; a handled
      log moves the cursor forward onto it and empties the slot. */
  lemma AfterDispatchMeans(s: Snapshot, log: LogEvent, o: PingOutcome, cap: nat)
    requires AfterDispatch(s, log, o, cap).Some?
    ensures Settled(o)
    ensures var t := AfterDispatch(s, log, o, cap).value;
      && t.startBlock == s.startBlock
      && (!o.Handled? ==> t == s)
      && (o.Handled? ==>
            t.lastProcessedBlock == log.blockNumber && t.lastProcessedLogIndex == log.logIndex
            && CursorLess(s.lastProcessedBlock, s.lastProcessedLogIndex, log.blockNumber, log.logIndex)
            && t.pendingTx.None?)
  {
  }

  /** The last dispatch of a run: the cursor ends on its log when it was handled, and where
      the rest of the run left it otherwise. */
  lemma CursorAfterLast(block: int, logIndex: int, dispatched: seq<LogEvent>, outcomes: seq<PingOutcome>)
    requires |dispatched| == |outcomes| > 0
    ensures var n := |dispatched| - 1;
      CursorAfter(block, logIndex, dispatched, outcomes)
      == if outcomes[n].Handled? then (dispatched[n].blockNumber, dispatched[n].logIndex)
         else CursorAfter(block, logIndex, dispatched[..n], outcomes[..n])
  {
  }

  /** One more dispatch after a possible run: the run extended by it is possible exactly
      when the dispatch is. */
  lemma ReplaySnoc(s: Snapshot, dispatched: seq<LogEvent>, outcomes: seq<PingOutcome>, cap: nat,
                   log: LogEvent, o: PingOutcome)
    requires |dispatched| == |outcomes|
    requires Replay(s, dispatched, outcomes, cap).Some?
    ensures Replay(s, dispatched + [log], outcomes + [o], cap)
         == AfterDispatch(Replay(s, dispatched, outcomes, cap).value, log, o, cap)
  {
    assert (dispatched + [log])[..|dispatched|] == dispatched;
    assert (outcomes + [o])[..|outcomes|] == outcomes;
  }

  /** `handlePing` agrees with the reference guards: whenever it settles an event, the
      document it leaves is the one `AfterDispatch` allows for that outcome. */
  lemma PingEffectAgrees(t: Trace, log: LogEvent, oracle: HandleOracle, cfg: BotConfig)
    ensures var e := PingEffect(t, log, oracle, cfg);
      Settled(e.0) ==> AfterDispatch(t.value, log, e.0, cfg.recentSetSize) == Some(e.1.value)
  {
    PingEffectDecides(t, log, oracle, cfg);
    PingEffectLeaves(t, log, oracle, cfg);
  }

  // ----- the dispatch loop -----

  /** Where a run of the dispatch loop has got to: the trace, and what `handlePing` did
      with each log of the contract so far. */
  datatype Walked = Walked(trace: Trace, outcomes: seq<PingOutcome>)

  /** The `for` loop of `scanOnce` over `batch` from the trace `t` (src/index.ts:108-113):
      a log of another address is passed over; a log of the contract goes to `handlePing`,
      with the chain's answers `handle(i)` for position `i`, and the state is then
      persisted. Nothing when one of the dispatches does not settle (its wait ran out). */
  function Walk(t: Trace, batch: seq<LogEvent>, handle: nat -> HandleOracle, cfg: BotConfig): Option<Walked>
  {
    if batch == [] then Some(Walked(t, []))
    else
      var n := |batch| - 1;
      var w := Walk(t, batch[..n], handle, cfg);
      if w.None? || batch[n].address != cfg.contractAddress then w
      else
        var e := PingEffect(w.value.trace, batch[n], handle(n), cfg);
        if Settled(e.0) then Some(Walked(Written(e.1), w.value.outcomes + [e.0])) else None
  }

  /** One log more in the dispatch loop. */
  lemma WalkStep(t: Trace, batch: seq<LogEvent>, handle: nat -> HandleOracle, cfg: BotConfig, i: nat)
    requires i < |batch|
    ensures var w := Walk(t, batch[..i], handle, cfg);
      Walk(t, batch[..i + 1], handle, cfg)
      == if w.None? || batch[i].address != cfg.contractAddress then w
         else
           var e := PingEffect(w.value.trace, batch[i], handle(i), cfg);
           if Settled(e.0) then Some(Walked(Written(e.1), w.value.outcomes + [e.0])) else None
  {
    assert batch[..i + 1][..i] == batch[..i];
  }

  /** A completed run of the dispatch loop has one outcome per log of the contract, and
      they are the outcomes the reference guards allow, one after the other on the
      filtered logs, ending on the document the run leaves (`Replay`). */
  lemma {:induction false} WalkReplays(t: Trace, batch: seq<LogEvent>, handle: nat -> HandleOracle, cfg: BotConfig)
    requires Walk(t, batch, handle, cfg).Some?
    ensures var w := Walk(t, batch, handle, cfg).value;
      var dispatched := FilterAddress(batch, cfg.contractAddress);
      && |w.outcomes| == |dispatched|
      && Replay(t.value, dispatched, w.outcomes, cfg.recentSetSize) == Some(w.trace.value)
  {
    if batch != [] {
      var n := |batch| - 1;
      WalkReplays(t, batch[..n], handle, cfg);
      var w := Walk(t, batch[..n], handle, cfg).value;
      var d := FilterAddress(batch[..n], cfg.contractAddress);
      if batch[n].address == cfg.contractAddress {
        var e := PingEffect(w.trace, batch[n], handle(n), cfg);
        assert Settled(e.0);
        assert Walk(t, batch, handle, cfg).value == Walked(Written(e.1), w.outcomes + [e.0]);
        assert FilterAddress(batch, cfg.contractAddress) == d + [batch[n]];
        PingEffectAgrees(w.trace, batch[n], handle(n), cfg);
        ReplaySnoc(t.value, d, w.outcomes, cfg.recentSetSize, batch[n], e.0);
        assert Replay(t.value, d + [batch[n]], w.outcomes + [e.0], cfg.recentSetSize) == Some(e.1.value);
      } else {
        assert Walk(t, batch, handle, cfg) == Some(w);
        assert FilterAddress(batch, cfg.contractAddress) == d;
      }
    }
  }

  /** A completed run of the dispatch loop persisted every dispatch, the last write being
      the final document, and is a step forward. */
  lemma {:induction false} WalkPersists(t: Trace, batch: seq<LogEvent>, handle: nat -> HandleOracle, cfg: BotConfig)
    requires Walk(t, batch, handle, cfg).Some?
    ensures var w := Walk(t, batch, handle, cfg).value;
      && |w.trace.persisted| >= |t.persisted| + |w.outcomes|
      && (w.outcomes != [] ==> w.trace.persisted[|w.trace.persisted| - 1] == w.trace.value)
      && Advanced(t, w.trace, cfg.recentSetSize)
  {
    if batch == [] {
      AdvancedTransitive(t, t, t, cfg.recentSetSize);
    } else {
      var n := |batch| - 1;
      WalkPersists(t, batch[..n], handle, cfg);
      var w := Walk(t, batch[..n], handle, cfg).value;
      if batch[n].address == cfg.contractAddress {
        var e := PingEffect(w.trace, batch[n], handle(n), cfg);
        assert Walk(t, batch, handle, cfg) == Some(Walked(Written(e.1), w.outcomes + [e.0]));
        PingEffectAdvances(w.trace, batch[n], handle(n), cfg);
        AdvancedTransitive(t, w.trace, Written(e.1), cfg.recentSetSize);
      } else {
        assert Walk(t, batch, handle, cfg) == Some(w);
      }
    }
  }

  /** What the dispatch loop has done between the trace `start` and the trace `now` (src/index.ts:108-113):
      the logs before position `reached` were walked through from `start`, with the
      outcomes `outcomes`. Unless the loop stalled, `now` is where the walk ended; a stalled
      loop stopped at a log of the contract whose `handlePing`, from that document and with
      the answers for that position, does not settle, and `now` is what that call left. */
  predicate BatchRun(start: Trace, now: Trace, batch: seq<LogEvent>, handle: nat -> HandleOracle,
                     cfg: BotConfig, reached: nat, outcomes: seq<PingOutcome>, stalled: bool)
  {
    && reached <= |batch|
    && var w := Walk(start, batch[..reached], handle, cfg);
    && w.Some? && w.value.outcomes == outcomes
    && (!stalled ==> now == w.value.trace)
    && (stalled ==>
          && reached < |batch| && batch[reached].address == cfg.contractAddress
          && var e := PingEffect(w.value.trace, batch[reached], handle(reached), cfg);
          && !Settled(e.0) && now == e.1)
  }

  /** A run of the dispatch loop is a step forward; when it did not stall, its outcomes are
      those the reference guards allow on the dispatched logs, and the cursor ends on the
      last handled log, or where it was when none was handled. */
  lemma BatchRunMeans(start: Trace, now: Trace, batch: seq<LogEvent>, handle: nat -> HandleOracle,
                      cfg: BotConfig, reached: nat, outcomes: seq<PingOutcome>, stalled: bool)
    requires BatchRun(start, now, batch, handle, cfg, reached, outcomes, stalled)
    ensures Advanced(start, now, cfg.recentSetSize)
    ensures var dispatched := FilterAddress(batch[..reached], cfg.contractAddress);
      && |outcomes| == |dispatched|
      && Replay(start.value, dispatched, outcomes, cfg.recentSetSize).Some?
      && (!stalled ==>
            && Replay(start.value, dispatched, outcomes, cfg.recentSetSize) == Some(now.value)
            && (now.value.lastProcessedBlock, now.value.lastProcessedLogIndex)
               == CursorAfter(start.value.lastProcessedBlock, start.value.lastProcessedLogIndex, dispatched, outcomes))
  {
    var w := Walk(start, batch[..reached], handle, cfg).value;
    WalkReplays(start, batch[..reached], handle, cfg);
    WalkPersists(start, batch[..reached], handle, cfg);
    ReplayMeans(start.value, FilterAddress(batch[..reached], cfg.contractAddress), outcomes, cfg.recentSetSize);
    if stalled {
      PingEffectAdvances(w.trace, batch[reached], handle(reached), cfg);
      AdvancedTransitive(start, w.trace, now, cfg.recentSetSize);
    }
  }

  // ----- scanOnce -----

  /** `scanOnce`: compute the range, fetch and sort the batch, dispatch the contract's logs
      in order persisting after each, and jump the cursor to the batch end when the batch
      was empty. `batch` is the sorted batch, `reached` the position the dispatch loop
      got to, `dispatched` the logs handed to `HandlePing` that came back, `outcomes` what
      each of them did, and `queries` the number of log queries made. The dispatch loop is
      entered only for a non-empty batch, which is what the source's `for` over an empty
      array amounts to. */
  predicate Scanned(before: Trace, after: Trace, tick: Tick, cfg: BotConfig, outcome: TickOutcome,
                    batch: seq<LogEvent>, reached: nat, outcomes: seq<PingOutcome>, queries: nat)
  {
    var r := ScanRange(before.value.startBlock, before.value.lastProcessedBlock, tick.latestBlock,
                       cfg.confirmations, cfg.batchSize);
    && (outcome == NothingToScan <==> r.None?)
    && (r.None? ==> after == before && batch == [] && reached == 0 && outcomes == [])
    && (r.Some? ==>
          var from, end := r.value.fromBlock, r.value.batchEnd;
          && 1 <= queries <= MAX_ATTEMPTS
          && (forall k :: 0 <= k < queries - 1 ==> tick.query(from, end, k).None?)
          && (outcome == QueryFailed <==> forall k :: 0 <= k < MAX_ATTEMPTS ==> tick.query(from, end, k).None?)
          && (outcome == QueryFailed ==>
                queries == MAX_ATTEMPTS && after == before && batch == [] && reached == 0 && outcomes == [])
          && (outcome != QueryFailed ==>
                && tick.query(from, end, queries - 1).Some?
                && SortedByPosition(batch)
                && multiset(batch) == multiset(NormalizeAll(tick.query(from, end, queries - 1).value)))
          && (outcome != QueryFailed && batch == [] ==>
                && outcome == BatchDone && reached == 0 && outcomes == []
                && after == before.(value := before.value.(lastProcessedBlock := end, lastProcessedLogIndex := -1)))
          && (batch != [] ==>
                && (outcome == BatchDone || outcome == Stalled)
                && BatchRun(before, after, batch, tick.handle, cfg, reached, outcomes, outcome == Stalled)
                && (outcome == BatchDone ==> reached == |batch|)))
  }

  /** A scan is a step forward when batches span at least one block: the empty batch moves
      the cursor to the batch end, which is past the old cursor's block. */
  lemma ScannedAdvances(before: Trace, after: Trace, tick: Tick, cfg: BotConfig, outcome: TickOutcome,
                        batch: seq<LogEvent>, reached: nat, outcomes: seq<PingOutcome>, queries: nat)
    requires Scanned(before, after, tick, cfg, outcome, batch, reached, outcomes, queries)
    requires cfg.batchSize >= 1
    ensures Advanced(before, after, cfg.recentSetSize)
    ensures outcome == BatchDone && batch == [] ==>
      after.value.lastProcessedBlock > before.value.lastProcessedBlock
  {
    if batch != [] {
      BatchRunMeans(before, after, batch, tick.handle, cfg, reached, outcomes, outcome == Stalled);
    }
  }

  /** The source accepts a batch size of 0 (any number parses). Then the batch ends one
      block before it starts, at the cursor's block, and an empty answer moves a cursor
      that sits on a log back to that block's `-1`: the same empty range is queried again
      on the next tick. */
  lemma ZeroBatchSizeMovesCursorBack(before: Trace, after: Trace, tick: Tick, cfg: BotConfig,
                                     batch: seq<LogEvent>, reached: nat, outcomes: seq<PingOutcome>, queries: nat)
    requires cfg.batchSize == 0
    requires before.value.lastProcessedBlock + 1 >= before.value.startBlock
    requires before.value.lastProcessedLogIndex >= 0
    requires Scanned(before, after, tick, cfg, BatchDone, batch, reached, outcomes, queries)
    requires batch == []
    ensures after.value.lastProcessedBlock == before.value.lastProcessedBlock
    ensures after.value.lastProcessedLogIndex == -1
    ensures CursorLess(after.value.lastProcessedBlock, after.value.lastProcessedLogIndex,
                       before.value.lastProcessedBlock, before.value.lastProcessedLogIndex)
  {
  }

  /** With the default configuration, a fresh state at block 100, head 113 and a first
      query that answers with no logs, the tick scans [100, 110] and leaves the cursor at
      `(110, -1)`. */
  lemma EmptyBatchExample(before: Trace, after: Trace, tick: Tick, outcome: TickOutcome,
                          batch: seq<LogEvent>, reached: nat, outcomes: seq<PingOutcome>, queries: nat)
    requires before.value.startBlock == 100 && before.value.lastProcessedBlock == 99
    requires tick.latestBlock == 113 && tick.query(100, 110, 0) == Some([])
    requires Scanned(before, after, tick, Defaults(100), outcome, batch, reached, outcomes, queries)
    ensures outcome == BatchDone && queries == 1
    ensures after.value == before.value.(lastProcessedBlock := 110, lastProcessedLogIndex := -1)
  {
    var cfg := Defaults(100);
    assert ScanRange(100, 99, 113, cfg.confirmations, cfg.batchSize) == Some(Range(100, 110));
    assert outcome != QueryFailed by {
      assert !tick.query(100, 110, 0).None?;
    }
    var first: nat := 0;
    assert first < queries - 1 ==> tick.query(100, 110, first).None?;
    assert NormalizeAll([]) == [];
    assert |batch| == |multiset(batch)| == 0;
  }

  /** `Scanned` when there is no range to scan. */
  lemma ScannedNoRange(before: Trace, tick: Tick, cfg: BotConfig, queries: nat)
    requires ScanRange(before.value.startBlock, before.value.lastProcessedBlock, tick.latestBlock,
                       cfg.confirmations, cfg.batchSize).None?
    ensures Scanned(before, before, tick, cfg, NothingToScan, [], 0, [], queries)
  {
  }

  /** `Scanned` when every log query failed. */
  lemma ScannedQueryFailed(before: Trace, tick: Tick, cfg: BotConfig, from: int, end: int, queries: nat)
    requires ScanRange(before.value.startBlock, before.value.lastProcessedBlock, tick.latestBlock,
                       cfg.confirmations, cfg.batchSize) == Some(Range(from, end))
    requires queries == MAX_ATTEMPTS
    requires forall k :: 0 <= k < queries - 1 ==> tick.query(from, end, k).None?
    requires tick.query(from, end, queries - 1).None?
    ensures Scanned(before, before, tick, cfg, QueryFailed, [], 0, [], queries)
  {
  }

  /** `Scanned` when a query answered with the logs `batch` were sorted into. */
  lemma ScannedFetched(before: Trace, after: Trace, tick: Tick, cfg: BotConfig, from: int, end: int,
                       outcome: TickOutcome, batch: seq<LogEvent>, reached: nat, outcomes: seq<PingOutcome>,
                       queries: nat)
    requires ScanRange(before.value.startBlock, before.value.lastProcessedBlock, tick.latestBlock,
                       cfg.confirmations, cfg.batchSize) == Some(Range(from, end))
    requires 1 <= queries <= MAX_ATTEMPTS
    requires forall k :: 0 <= k < queries - 1 ==> tick.query(from, end, k).None?
    requires tick.query(from, end, queries - 1).Some?
    requires SortedByPosition(batch)
    requires multiset(batch) == multiset(NormalizeAll(tick.query(from, end, queries - 1).value))
    requires outcome == BatchDone || outcome == Stalled
    requires batch == [] ==>
      && outcome == BatchDone && reached == 0 && outcomes == []
      && after == before.(value := before.value.(lastProcessedBlock := end, lastProcessedLogIndex := -1))
    requires batch != [] ==>
      && BatchRun(before, after, batch, tick.handle, cfg, reached, outcomes, outcome == Stalled)
      && (outcome == BatchDone ==> reached == |batch|)
    ensures Scanned(before, after, tick, cfg, outcome, batch, reached, outcomes, queries)
  {
    assert !tick.query(from, end, queries - 1).None?;
  }

  /** `scanOnce` (src/index.ts:86-123), proved against `Scanned`. */
  method ScanOnce(state: BotState, tick: Tick, cfg: BotConfig)
    returns (outcome: TickOutcome, batch: seq<LogEvent>, reached: nat, dispatched: seq<LogEvent>,
             outcomes: seq<PingOutcome>, queries: nat)
    modifies state
    ensures Scanned(old(state.Footprint()), state.Footprint(), tick, cfg, outcome, batch, reached, outcomes, queries)
    ensures dispatched == FilterAddress(batch[..reached], cfg.contractAddress)
    ensures SortedByPosition(dispatched)
  {
    ghost var before := state.Footprint();
    batch, reached, dispatched, outcomes, queries := [], 0, [], [], 0;
    var range := ScanRange(state.startBlock, state.lastProcessedBlock, tick.latestBlock,
                           cfg.confirmations, cfg.batchSize);
    if range.None? {
      ScannedNoRange(before, tick, cfg, queries);
      return NothingToScan, batch, reached, dispatched, outcomes, queries;
    }
    var fromBlock, batchEnd := range.value.fromBlock, range.value.batchEnd;
    var fetched;
    fetched, queries := FetchBatch(tick.query, fromBlock, batchEnd, tick.jitter);
    if fetched.None? {
      ScannedQueryFailed(before, tick, cfg, fromBlock, batchEnd, queries);
      return QueryFailed, batch, reached, dispatched, outcomes, queries;
    }
    batch := fetched.value;
    if batch == [] {
      state.lastProcessedBlock := batchEnd;
      state.lastProcessedLogIndex := -1;
      ScannedFetched(before, state.Footprint(), tick, cfg, fromBlock, batchEnd, BatchDone, batch, reached, outcomes, queries);
      return BatchDone, batch, reached, dispatched, outcomes, queries;
    }
    var stalled;
    stalled, reached, dispatched, outcomes := DispatchBatch(state, batch, tick.handle, cfg);
    DispatchedSorted(batch, reached, cfg.contractAddress);
    outcome := if stalled then Stalled else BatchDone;
    ScannedFetched(before, state.Footprint(), tick, cfg, fromBlock, batchEnd, outcome, batch, reached, outcomes, queries);
  }

  /** The logs dispatched from a sorted batch up to any position are in position order. */
  lemma DispatchedSorted(batch: seq<LogEvent>, reached: nat, address: string)
    requires reached <= |batch|
    requires SortedByPosition(batch)
    ensures SortedByPosition(FilterAddress(batch[..reached], address))
  {
    assert SortedByPosition(batch[..reached]);
    FilterKeepsSorted(batch[..reached], address);
  }

  /** One body of the dispatch loop (src/index.ts:111-112): `handlePing`, then a write of
      the state; nothing is written when the wait ran out of observations. */
  method DispatchOne(state: BotState, log: LogEvent, oracle: HandleOracle, cfg: BotConfig)
    returns (o: PingOutcome, stalled: bool)
    modifies state
    ensures var e := PingEffect(old(state.Footprint()), log, oracle, cfg);
      && o == e.0
      && (stalled <==> !Settled(o))
      && state.Footprint() == if stalled then e.1 else Written(e.1)
  {
    var submitted;
    o, submitted := HandlePing(state, log, oracle, cfg);
    stalled := o == PriorStillPending || o == OwnStillPending;
    if !stalled {
      state.WriteState();
    }
  }

  /** The `for` loop of `scanOnce` (src/index.ts:108-113), proved against `BatchRun`: it
      stops, reporting `stalled`, at a dispatch whose wait ran out of observations, and
      `reached` is the position of that log, or the batch length. */
  method DispatchBatch(state: BotState, batch: seq<LogEvent>, handle: nat -> HandleOracle, cfg: BotConfig)
    returns (stalled: bool, reached: nat, dispatched: seq<LogEvent>, outcomes: seq<PingOutcome>)
    modifies state
    ensures BatchRun(old(state.Footprint()), state.Footprint(), batch, handle, cfg, reached, outcomes, stalled)
    ensures !stalled ==> reached == |batch|
    ensures dispatched == FilterAddress(batch[..reached], cfg.contractAddress)
  {
    stalled, reached, dispatched, outcomes := false, 0, [], [];
    ghost var start := state.Footprint();
    while reached < |batch| && !stalled
      invariant start == old(state.Footprint())
      invariant BatchRun(start, state.Footprint(), batch, handle, cfg, reached, outcomes, stalled)
      invariant dispatched == FilterAddress(batch[..reached], cfg.contractAddress)
      decreases |batch| - reached, if stalled then 0 else 1
    {
      FilterAddressStep(batch, reached, cfg.contractAddress);
      WalkStep(start, batch, handle, cfg, reached);
      var log := batch[reached];
      if log.address == cfg.contractAddress {
        var o;
        o, stalled := DispatchOne(state, log, handle(reached), cfg);
        if !stalled {
          dispatched := dispatched + [log];
          outcomes := outcomes + [o];
          reached := reached + 1;
        }
      } else {
        reached := reached + 1;
      }
    }
  }

  // ----- start-up and the main loop -----

  /** How the start-up resume (src/index.ts:54-58) took the trace `start` to `now`: the
      record in the slot, if any, is waited on as `waitForPendingTx` does (`Await`), and the
      state is persisted once the wait resolved it. */
  predicate ResumedTo(start: Trace, now: Trace, polls: seq<Obs>, cfg: BotConfig, w: WaitOutcome)
  {
    var e := Await(start, polls, cfg);
    w == e.0 && now == if w.Resolved? then Written(e.1) else e.1
  }

  /** What a resume amounts to: with nothing loaded it does nothing; otherwise it ends as
      the wait on the loaded record does (`WaitEffectMeans`), and a resolved resume has
      persisted, last, a document with an empty slot, the loaded key marked and the cursor
      unchanged. It is a step forward. */
  lemma ResumedToMeans(start: Trace, now: Trace, polls: seq<Obs>, cfg: BotConfig, w: WaitOutcome)
    requires ResumedTo(start, now, polls, cfg, w)
    ensures start.value.pendingTx.None? <==> w == NothingPending
    ensures start.value.pendingTx.None? ==> now == start
    ensures w.Resolved? ==>
      && |now.persisted| > 0
      && var doc := now.persisted[|now.persisted| - 1];
      && doc == now.value && doc.pendingTx.None?
      && doc.recentProcessedKeys
         == MarkedKeys(start.value.recentProcessedKeys, start.value.pendingTx.value.pingKey, cfg.recentSetSize)
      && doc.lastProcessedBlock == start.value.lastProcessedBlock
      && doc.lastProcessedLogIndex == start.value.lastProcessedLogIndex
    ensures w.StillPending? ==> now.value.pendingTx.Some?
    ensures Advanced(start, now, cfg.recentSetSize)
  {
    if start.value.pendingTx.Some? {
      WaitEffectMeans(start, start.value.pendingTx.value, polls, cfg);
      WaitEffectLogs(start, start.value.pendingTx.value, polls, cfg);
    }
  }

  /** The start-up resume, proved against `ResumedTo`. */
  method Resume(state: BotState, polls: seq<Obs>, cfg: BotConfig) returns (w: WaitOutcome)
    modifies state
    ensures ResumedTo(old(state.Footprint()), state.Footprint(), polls, cfg, w)
  {
    w := NothingPending;
    if state.pendingTx.Some? {
      w := WaitForPendingTx(state, polls, cfg);
      if w.Resolved? {
        state.WriteState();
      }
    }
  }

  /** What one tick of the main loop did: `ScanOnce`'s results and the trace it left. */
  datatype TickLog = TickLog(outcome: TickOutcome, batch: seq<LogEvent>, reached: nat,
                             outcomes: seq<PingOutcome>, queries: nat, scanned: Trace)

  /** One iteration of the main loop (src/index.ts:75-81) from `before` to `after`: a scan,
      then a write of the state unless the log query failed (the scan throws, and the
      write is skipped). A stalled scan is not completed, so it writes nothing. */
  predicate TickRan(before: Trace, tick: Tick, cfg: BotConfig, r: TickLog, after: Trace)
  {
    && Scanned(before, r.scanned, tick, cfg, r.outcome, r.batch, r.reached, r.outcomes, r.queries)
    && after == if r.outcome == Stalled || r.outcome == QueryFailed then r.scanned else Written(r.scanned)
  }

  /** A tick is a step forward when batches span at least one block. */
  lemma TickRanAdvances(before: Trace, tick: Tick, cfg: BotConfig, r: TickLog, after: Trace)
    requires TickRan(before, tick, cfg, r, after)
    requires cfg.batchSize >= 1
    ensures Advanced(before, after, cfg.recentSetSize)
  {
    ScannedAdvances(before, r.scanned, tick, cfg, r.outcome, r.batch, r.reached, r.outcomes, r.queries);
  }

  /** One iteration of the main loop, proved against `TickRan`. */
  method ScanTick(state: BotState, tick: Tick, cfg: BotConfig) returns (outcome: TickOutcome, ghost r: TickLog)
    modifies state
    ensures outcome == r.outcome
    ensures TickRan(old(state.Footprint()), tick, cfg, r, state.Footprint())
  {
    var batch, reached, dispatched, outcomes, queries;
    outcome, batch, reached, dispatched, outcomes, queries := ScanOnce(state, tick, cfg);
    r := TickLog(outcome, batch, reached, outcomes, queries, state.Footprint());
    if outcome != Stalled && outcome != QueryFailed {
      state.WriteState();
    }
  }

  /** The ticks `logs` ran one after the other through the traces `trail`: tick `i` ran on
      the trace tick `i - 1` left. */
  predicate TicksRan(trail: seq<Trace>, ticks: seq<Tick>, cfg: BotConfig, logs: seq<TickLog>)
  {
    && |trail| == |logs| + 1 && |logs| <= |ticks|
    && forall i :: 0 <= i < |logs| ==> TickRan(trail[i], ticks[i], cfg, logs[i], trail[i + 1])
  }

  /** A run of ticks is a step forward when batches span at least one block. */
  lemma {:induction false} TicksRanAdvance(trail: seq<Trace>, ticks: seq<Tick>, cfg: BotConfig, logs: seq<TickLog>)
    requires TicksRan(trail, ticks, cfg, logs)
    requires cfg.batchSize >= 1
    ensures Advanced(trail[0], trail[|logs|], cfg.recentSetSize)
  {
    if logs == [] {
      AdvancedTransitive(trail[0], trail[0], trail[0], cfg.recentSetSize);
    } else {
      var n := |logs| - 1;
      TicksRanAdvance(trail[..n + 1], ticks, cfg, logs[..n]);
      TickRanAdvances(trail[n], ticks[n], cfg, logs[n], trail[n + 1]);
      AdvancedTransitive(trail[0], trail[n], trail[n + 1], cfg.recentSetSize);
    }
  }

  /** How the ticks went: `outcomes` are those of the ticks completed, none of them
      stalled; all ticks ran unless the last one run stalled. */
  predicate TicksEnded(ticks: seq<Tick>, logs: seq<TickLog>, outcomes: seq<TickOutcome>, stalled: bool)
  {
    && (stalled ==> |logs| >= 1 && logs[|logs| - 1].outcome == Stalled && |outcomes| == |logs| - 1)
    && (!stalled ==> |logs| == |ticks| && |outcomes| == |logs|)
    && forall i :: 0 <= i < |outcomes| ==> outcomes[i] == logs[i].outcome && outcomes[i] != Stalled
  }

  /** The `while (!stopping)` loop (src/index.ts:74-82) over the ticks `ticks`: one
      `ScanTick` each, stopping early at a stalled one. `trail` holds the trace before
      every tick run and after the last, `logs` what every tick run did. */
  method ScanTicks(state: BotState, ticks: seq<Tick>, cfg: BotConfig)
    returns (outcomes: seq<TickOutcome>, stalled: bool, ghost trail: seq<Trace>, ghost logs: seq<TickLog>)
    modifies state
    ensures TicksRan(trail, ticks, cfg, logs) && trail[|logs|] == state.Footprint()
    ensures trail[0] == old(state.Footprint())
    ensures TicksEnded(ticks, logs, outcomes, stalled)
  {
    outcomes, stalled, trail, logs := [], false, [state.Footprint()], [];
    var t := 0;
    while t < |ticks|
      invariant 0 <= t <= |ticks| && |outcomes| == t && |logs| == t
      invariant TicksRan(trail, ticks, cfg, logs) && trail[|logs|] == state.Footprint()
      invariant trail[0] == old(state.Footprint())
      invariant forall i :: 0 <= i < |outcomes| ==> outcomes[i] == logs[i].outcome && outcomes[i] != Stalled
    {
      ghost var before := state.Footprint();
      var outcome;
      ghost var r;
      outcome, r := ScanTick(state, ticks[t], cfg);
      TicksRanSnoc(trail, ticks, cfg, logs, r, state.Footprint());
      trail, logs := trail + [state.Footprint()], logs + [r];
      if outcome == Stalled {
        return outcomes, true, trail, logs;
      }
      outcomes := outcomes + [outcome];
      t := t + 1;
    }
  }

  /** One tick more extends a run of ticks. */
  lemma TicksRanSnoc(trail: seq<Trace>, ticks: seq<Tick>, cfg: BotConfig, logs: seq<TickLog>, r: TickLog, after: Trace)
    requires TicksRan(trail, ticks, cfg, logs) && |logs| < |ticks|
    requires TickRan(trail[|logs|], ticks[|logs|], cfg, r, after)
    ensures TicksRan(trail + [after], ticks, cfg, logs + [r])
  {
    var trail', logs' := trail + [after], logs + [r];
    forall i | 0 <= i < |logs'|
      ensures TickRan(trail'[i], ticks[i], cfg, logs'[i], trail'[i + 1])
    {
      if i < |logs| {
        assert trail'[i] == trail[i] && trail'[i + 1] == trail[i + 1] && logs'[i] == logs[i];
      }
    }
  }

  /** `main` after the connectivity probe (src/index.ts:54-83): resume, then one scan per
      tick, persisting after every tick whose log query did not fail, and a last write
      when stopping. It returns early, reporting `stalled`, when a wait runs out of
      observations. `resumed` is how the resume ended; `trail` and `logs` are as for
      `ScanTicks`, starting on the trace the resume left. */
  method Run(state: BotState, resumePolls: seq<Obs>, ticks: seq<Tick>, cfg: BotConfig)
    returns (resumed: WaitOutcome, outcomes: seq<TickOutcome>, stalled: bool,
             ghost trail: seq<Trace>, ghost logs: seq<TickLog>)
    modifies state
    ensures TicksRan(trail, ticks, cfg, logs)
    ensures ResumedTo(old(state.Footprint()), trail[0], resumePolls, cfg, resumed)
    ensures resumed.StillPending? ==> stalled && logs == [] && outcomes == []
    ensures !resumed.StillPending? ==> TicksEnded(ticks, logs, outcomes, stalled)
    ensures state.Footprint() == if stalled then trail[|logs|] else Written(trail[|logs|])
  {
    resumed := Resume(state, resumePolls, cfg);
    if resumed.StillPending? {
      return resumed, [], true, [state.Footprint()], [];
    }
    outcomes, stalled, trail, logs := ScanTicks(state, ticks, cfg);
    if !stalled {
      // the shutdown handler's final write
      state.WriteState();
    }
  }
}
