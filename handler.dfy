/** The pending-transaction state machine and the dispatch of one Ping event
    (src/handler.ts). The chain is an oracle: each poll of the wait loop reads one
    observation, and a new submission reads one submission record. */
module Handler {
  import opened Common
  import opened Config
  import opened State
  import opened Fees
  import opened Pending
  import opened Scanner

  /** What one iteration of the wait loop learns from the chain: the receipts known at that
      moment, the block height for the staleness test, and, should a replacement be
      broadcast, the latest base fee, the hash the broadcast returns and the block height
      read after it. */
  datatype Obs = Obs(
    receipts: map<string, Receipt>,
    blockNumber: int,
    baseFee: Option<int>,
    replacementHash: string,
    blockAfterReplace: int)

  /** What a first submission learns from the chain: the pending nonce, the base fee, the
      broadcast hash and the block height read after it. */
  datatype Submission = Submission(nonce: int, baseFee: Option<int>, txHash: string, blockNumber: int)

  /** How an outstanding transaction ended. */
  datatype Resolution = Succeeded | Reverted | Abandoned

  /** The decision of one poll. */
  datatype Action = Resolve(how: Resolution) | Replace(next: PendingTx) | KeepWaiting

  function Lookup(receipts: map<string, Receipt>, txHash: string): Option<Receipt>
  {
    if txHash in receipts then Some(receipts[txHash]) else None
  }

  /** `t` replaces the snapshot `p`: same nonce, event and argument, one more replacement
      than `p`, and fees no lower than `p`'s bumped by 12%. */
  predicate IsReplacementOf(p: PendingTx, t: PendingTx)
  {
    && t.nonce == p.nonce && t.pingKey == p.pingKey && t.pongArg == p.pongArg
    && t.replacements == p.replacements + 1
    && t.maxFeePerGas >= BumpByPercent(p.maxFeePerGas, BUMP_PERCENT)
    && t.maxPriorityFeePerGas >= BumpByPercent(p.maxPriorityFeePerGas, BUMP_PERCENT)
  }

  /** The record written after a replacement broadcast (src/handler.ts:61-81): priced with
      `p`'s fees as the floor, so it outbids `p` and keeps its nonce, event and argument. */
  function ReplacementFor(p: PendingTx, o: Obs, cfg: BotConfig): (r: PendingTx)
    ensures IsReplacementOf(p, r)
    ensures r.txHash == o.replacementHash && r.sentAtBlock == o.blockAfterReplace
    ensures FeeData(r.maxFeePerGas, r.maxPriorityFeePerGas)
         == ComputeFees(o.baseFee, cfg.priorityFee, Some(PriorFees(p.maxFeePerGas, p.maxPriorityFeePerGas)))
  {
    var fees := ComputeFees(o.baseFee, cfg.priorityFee,
                            Some(PriorFees(p.maxFeePerGas, p.maxPriorityFeePerGas)));
    PendingTx(p.nonce, o.replacementHash, p.pingKey, o.blockAfterReplace,
              fees.maxFeePerGas, fees.maxPriorityFeePerGas, p.replacements + 1, p.pongArg)
  }

  /** One iteration of the `while (true)` loop for the snapshot `p` (src/handler.ts:24-84).
      The receipt looked up is always that of `p.txHash` and the staleness is measured from
      `p.sentAtBlock`, because `p` is never refreshed. */
  function Decide(p: PendingTx, o: Obs, cfg: BotConfig): (a: Action)
    ensures var check := CheckTxStatus(Lookup(o.receipts, p.txHash), o.blockNumber,
                                       p.sentAtBlock, cfg.stuckBlocks);
      && (a.Resolve? <==> check.Confirmed? || (check.Stuck? && p.replacements >= cfg.maxReplacementsPerTx))
      && (a.Replace? <==> check.Stuck? && p.replacements < cfg.maxReplacementsPerTx)
      && (a == Resolve(Succeeded) <==> check.Confirmed? && check.receipt.status == Some(1))
      && (a == Resolve(Abandoned) <==> check.Stuck? && p.replacements >= cfg.maxReplacementsPerTx)
    ensures a.Replace? ==>
      && IsReplacementOf(p, a.next)
      && a.next.txHash == o.replacementHash && a.next.sentAtBlock == o.blockAfterReplace
  {
    match CheckTxStatus(Lookup(o.receipts, p.txHash), o.blockNumber, p.sentAtBlock, cfg.stuckBlocks)
    case Confirmed(receipt) =>
      Resolve(if receipt.status == Some(1) then Succeeded else Reverted)
    case Stuck =>
      if p.replacements >= cfg.maxReplacementsPerTx then Resolve(Abandoned)
      else Replace(ReplacementFor(p, o, cfg))
    case Pending => KeepWaiting
  }

  /** The record in `state.pendingTx` after the unresolving polls `polls` for the snapshot
      `p`: the last replacement written, or `p` itself. */
  function Latest(p: PendingTx, polls: seq<Obs>, cfg: BotConfig): PendingTx
  {
    if polls == [] then p
    else
      var a := Decide(p, polls[|polls| - 1], cfg);
      if a.Replace? then a.next else Latest(p, polls[..|polls| - 1], cfg)
  }

  /** Within one wait the slot keeps its nonce, event and argument, and its replacement
      count never exceeds the snapshot's plus one: the budget check always reads the
      snapshot's count. */
  lemma {:induction false} LatestIsSnapshotOrReplacement(p: PendingTx, polls: seq<Obs>, cfg: BotConfig)
    ensures var t := Latest(p, polls, cfg); t == p || IsReplacementOf(p, t)
  {
    if polls != [] {
      LatestIsSnapshotOrReplacement(p, polls[..|polls| - 1], cfg);
    }
  }

  /** While the snapshot's own hash has no receipt (for instance because a replacement was
      the one mined) and the snapshot is stale, every poll of one wait replaces again and
      none abandons, however many polls there are, since the budget is compared against the
      snapshot's count. */
  lemma SnapshotBudgetNeverReached(p: PendingTx, polls: seq<Obs>, cfg: BotConfig)
    requires p.replacements < cfg.maxReplacementsPerTx
    requires forall j :: 0 <= j < |polls| ==>
      p.txHash !in polls[j].receipts && polls[j].blockNumber - p.sentAtBlock >= cfg.stuckBlocks
    ensures forall j :: 0 <= j < |polls| ==>
      Decide(p, polls[j], cfg).Replace? && Decide(p, polls[j], cfg).next.replacements == p.replacements + 1
  {
  }

  /** The window after the outstanding transaction, if any, is resolved. */
  function KeysAfterResolving(pending: Option<PendingTx>, keys: seq<string>, cap: nat): seq<string>
  {
    if pending.Some? then MarkedKeys(keys, pending.value.pingKey, cap) else keys
  }

  /** The trace after the Pong `tx` is broadcast and recorded in the slot. */
  function Submitted(t: Trace, tx: PendingTx): Trace
  {
    t.(value := t.value.(pendingTx := Some(tx)), broadcasts := t.broadcasts + [tx])
  }

  /** What carrying out the decision `a` for the snapshot `p` does to the trace `t`
      (src/handler.ts:26-84): a resolution marks the event and empties the slot; a
      replacement is broadcast, put in the slot and persisted; otherwise nothing changes. */
  function PollEffect(t: Trace, p: PendingTx, a: Action, cfg: BotConfig): Trace
  {
    match a
    case Resolve(_) =>
      t.(value := t.value.(recentProcessedKeys := MarkedKeys(t.value.recentProcessedKeys, p.pingKey, cfg.recentSetSize),
                           pendingTx := None))
    case Replace(next) => Written(Submitted(t, next))
    case KeepWaiting => t
  }

  /** One poll of `waitForPendingTx` for the snapshot `p`: carries out `Decide`. */
  method PollOnce(state: BotState, p: PendingTx, o: Obs, cfg: BotConfig) returns (a: Action)
    modifies state
    ensures a == Decide(p, o, cfg)
    ensures state.Footprint() == PollEffect(old(state.Footprint()), p, a, cfg)
  {
    var check := CheckTxStatus(Lookup(o.receipts, p.txHash), o.blockNumber, p.sentAtBlock, cfg.stuckBlocks);
    if check.Confirmed? {
      // success and revert are handled alike
      state.MarkProcessed(p.pingKey, cfg.recentSetSize);
      state.pendingTx := None;
      return Resolve(if check.receipt.status == Some(1) then Succeeded else Reverted);
    }
    if check.Stuck? {
      if p.replacements >= cfg.maxReplacementsPerTx {
        state.MarkProcessed(p.pingKey, cfg.recentSetSize);
        state.pendingTx := None;
        return Resolve(Abandoned);
      }
      var next := ReplacementFor(p, o, cfg);
      state.broadcasts := state.broadcasts + [next];
      state.pendingTx := Some(next);
      state.WriteState();
      return Replace(next);
    }
    return KeepWaiting;
  }

  /** How a wait ended: there was nothing to wait for, the transaction was resolved at the
      `polls`-th observation, or the observations ran out first. */
  datatype WaitOutcome = NothingPending | Resolved(how: Resolution, polls: nat) | StillPending

  /** The position of the first poll whose decision resolves `p`, or `|polls|` when none
      does. */
  function FirstResolving(p: PendingTx, polls: seq<Obs>, cfg: BotConfig): (n: nat)
    ensures n <= |polls|
    ensures forall j :: 0 <= j < n ==> !Decide(p, polls[j], cfg).Resolve?
    ensures n < |polls| ==> Decide(p, polls[n], cfg).Resolve?
  {
    if polls == [] then 0
    else if Decide(p, polls[0], cfg).Resolve? then 0
    else 1 + FirstResolving(p, polls[1..], cfg)
  }

  /** The trace after the polls `polls` for the snapshot `p` are carried out in order. */
  function WaitSoFar(t: Trace, p: PendingTx, polls: seq<Obs>, cfg: BotConfig): Trace
  {
    if polls == [] then t
    else PollEffect(WaitSoFar(t, p, polls[..|polls| - 1], cfg), p, Decide(p, polls[|polls| - 1], cfg), cfg)
  }

  /** What `waitForPendingTx` does to the trace `t` for the snapshot `p` (src/handler.ts:13-88):
      the polls are carried out up to and including the first that resolves. When none
      resolves, the wait is still going on. */
  function WaitEffect(t: Trace, p: PendingTx, polls: seq<Obs>, cfg: BotConfig): (r: (WaitOutcome, Trace))
    ensures r.0.Resolved? || r.0.StillPending?
  {
    var n := FirstResolving(p, polls, cfg);
    if n == |polls| then (StillPending, WaitSoFar(t, p, polls, cfg))
    else (Resolved(Decide(p, polls[n], cfg).how, n + 1), WaitSoFar(t, p, polls[..n + 1], cfg))
  }

  /** `waitForPendingTx` on the trace `t`: nothing when the slot is empty, otherwise the wait
      on the record in the slot. */
  function Await(t: Trace, polls: seq<Obs>, cfg: BotConfig): (WaitOutcome, Trace)
  {
    if t.value.pendingTx.None? then (NothingPending, t)
    else WaitEffect(t, t.value.pendingTx.value, polls, cfg)
  }

  /** The records the polls `polls` broadcast for the snapshot `p`: the new record of every
      `Replace` decision, in order. */
  function Replacements(p: PendingTx, polls: seq<Obs>, cfg: BotConfig): seq<PendingTx>
  {
    if polls == [] then []
    else
      var a := Decide(p, polls[|polls| - 1], cfg);
      Replacements(p, polls[..|polls| - 1], cfg) + (if a.Replace? then [a.next] else [])
  }

  /** The documents persisted after the broadcasts `rs`: one per record, the document `base`
      with that record in the slot. */
  function ReplacementDocs(base: Snapshot, rs: seq<PendingTx>): (docs: seq<Snapshot>)
    ensures |docs| == |rs|
    ensures forall k :: 0 <= k < |rs| ==> docs[k] == base.(pendingTx := Some(rs[k]))
  {
    if rs == [] then [] else ReplacementDocs(base, rs[..|rs| - 1]) + [base.(pendingTx := Some(rs[|rs| - 1]))]
  }

  /** Everything the polls broadcast replaces the snapshot. */
  lemma {:induction false} ReplacementsReplace(p: PendingTx, polls: seq<Obs>, cfg: BotConfig)
    ensures forall k :: 0 <= k < |Replacements(p, polls, cfg)| ==>
      IsReplacementOf(p, Replacements(p, polls, cfg)[k])
  {
    if polls != [] {
      ReplacementsReplace(p, polls[..|polls| - 1], cfg);
    }
  }

  /** Carrying out polls none of which resolves `p`, from a document whose slot holds `p`,
      leaves the document as it was except that the slot holds the latest replacement. */
  lemma {:induction false} WaitSoFarValue(t: Trace, p: PendingTx, polls: seq<Obs>, cfg: BotConfig)
    requires t.value.pendingTx == Some(p)
    requires forall j :: 0 <= j < |polls| ==> !Decide(p, polls[j], cfg).Resolve?
    ensures WaitSoFar(t, p, polls, cfg).value == t.value.(pendingTx := Some(Latest(p, polls, cfg)))
  {
    if polls != [] {
      WaitSoFarValue(t, p, polls[..|polls| - 1], cfg);
    }
  }

  /** Carrying out polls none of which resolves `p`, from a document whose slot holds `p`,
      broadcasts exactly the replacements they decide, each persisted once with itself in
      the slot of the document. */
  lemma {:induction false} WaitSoFarLogs(t: Trace, p: PendingTx, polls: seq<Obs>, cfg: BotConfig)
    requires t.value.pendingTx == Some(p)
    requires forall j :: 0 <= j < |polls| ==> !Decide(p, polls[j], cfg).Resolve?
    ensures WaitSoFar(t, p, polls, cfg).broadcasts == t.broadcasts + Replacements(p, polls, cfg)
    ensures WaitSoFar(t, p, polls, cfg).persisted == t.persisted + ReplacementDocs(t.value, Replacements(p, polls, cfg))
  {
    if polls != [] {
      var init := polls[..|polls| - 1];
      var u := WaitSoFar(t, p, init, cfg);
      WaitSoFarLogs(t, p, init, cfg);
      WaitSoFarValue(t, p, init, cfg);
      var a := Decide(p, polls[|polls| - 1], cfg);
      var sent := Replacements(p, init, cfg);
      if a.Replace? {
        assert WaitSoFar(t, p, polls, cfg) == Written(Submitted(u, a.next));
        assert (sent + [a.next])[..|sent|] == sent;
      } else {
        assert WaitSoFar(t, p, polls, cfg) == u;
        assert sent + [] == sent;
      }
    }
  }

  /** How a wait on the slot's record `p` ends. It resolves exactly at the first poll whose
      decision resolves, with that decision's resolution, marking the key and emptying the
      slot and changing nothing else in the document; or no poll resolves and the slot
      holds the latest replacement, which is `p` itself or replaces it. A sound window
      stays sound. */
  lemma WaitEffectMeans(t: Trace, p: PendingTx, polls: seq<Obs>, cfg: BotConfig)
    requires t.value.pendingTx == Some(p)
    ensures WaitEffect(t, p, polls, cfg).0.StillPending? <==> FirstResolving(p, polls, cfg) == |polls|
    ensures var w := WaitEffect(t, p, polls, cfg).0;
      w.Resolved? ==>
        && 1 <= w.polls <= |polls| && w.polls == FirstResolving(p, polls, cfg) + 1
        && Decide(p, polls[w.polls - 1], cfg) == Resolve(w.how)
        && (forall j :: 0 <= j < w.polls - 1 ==> !Decide(p, polls[j], cfg).Resolve?)
        && WaitEffect(t, p, polls, cfg).1.value
           == t.value.(recentProcessedKeys := MarkedKeys(t.value.recentProcessedKeys, p.pingKey, cfg.recentSetSize),
                       pendingTx := None)
    ensures var u := WaitEffect(t, p, polls, cfg).1;
      WaitEffect(t, p, polls, cfg).0.StillPending? ==>
        && (forall j :: 0 <= j < |polls| ==> !Decide(p, polls[j], cfg).Resolve?)
        && u.value == t.value.(pendingTx := Some(Latest(p, polls, cfg)))
        && (u.value.pendingTx.value == p || IsReplacementOf(p, u.value.pendingTx.value))
    ensures WindowSound(t.value.recentProcessedKeys, cfg.recentSetSize) ==>
      WindowSound(WaitEffect(t, p, polls, cfg).1.value.recentProcessedKeys, cfg.recentSetSize)
  {
    var n := FirstResolving(p, polls, cfg);
    WaitSoFarValue(t, p, polls[..n], cfg);
    if n == |polls| {
      assert polls[..n] == polls;
      LatestIsSnapshotOrReplacement(p, polls, cfg);
    } else {
      assert polls[..n + 1][..n] == polls[..n];
    }
    if WindowSound(t.value.recentProcessedKeys, cfg.recentSetSize) {
      MarkedKeysNoDup(t.value.recentProcessedKeys, p.pingKey, cfg.recentSetSize);
      MarkedKeysBounded(t.value.recentProcessedKeys, p.pingKey, cfg.recentSetSize);
    }
  }

  /** What a wait on the slot's record `p` sends and writes: the polls before the first
      resolving one broadcast exactly the replacements they decide, each of them replaces
      `p`, and each is persisted once, the document with that replacement in its slot. */
  lemma WaitEffectLogs(t: Trace, p: PendingTx, polls: seq<Obs>, cfg: BotConfig)
    requires t.value.pendingTx == Some(p)
    ensures var u := WaitEffect(t, p, polls, cfg).1;
      var sent := Replacements(p, polls[..FirstResolving(p, polls, cfg)], cfg);
      && u.broadcasts == t.broadcasts + sent
      && u.persisted == t.persisted + ReplacementDocs(t.value, sent)
      && (forall k :: 0 <= k < |sent| ==> IsReplacementOf(p, sent[k]))
  {
    var n := FirstResolving(p, polls, cfg);
    WaitSoFarLogs(t, p, polls[..n], cfg);
    ReplacementsReplace(p, polls[..n], cfg);
    if n == |polls| {
      assert polls[..n] == polls;
    } else {
      assert polls[..n + 1][..n] == polls[..n];
    }
  }

  /** `waitForPendingTx`, driven by the observations `polls` (one per loop iteration; the
      two-second sleep between them is not modelled). The snapshot is taken once. */
  method WaitForPendingTx(state: BotState, polls: seq<Obs>, cfg: BotConfig) returns (w: WaitOutcome)
    modifies state
    ensures (w, state.Footprint()) == Await(old(state.Footprint()), polls, cfg)
  {
    if state.pendingTx.None? {
      return NothingPending;
    }
    var p := state.pendingTx.value;
    var i := 0;
    while i < |polls|
      invariant 0 <= i <= |polls|
      invariant forall j :: 0 <= j < i ==> !Decide(p, polls[j], cfg).Resolve?
      invariant state.Footprint() == WaitSoFar(old(state.Footprint()), p, polls[..i], cfg)
    {
      assert polls[..i + 1][..i] == polls[..i];
      var a := PollOnce(state, p, polls[i], cfg);
      if a.Resolve? {
        assert FirstResolving(p, polls, cfg) == i;
        return Resolved(a.how, i + 1);
      }
      i := i + 1;
    }
    assert polls[..i] == polls;
    return StillPending;
  }

  // ----- event keys -----

  function DigitChar(d: nat): (c: char)
    requires d < 10
    ensures '0' <= c <= '9'
  {
    ('0' as int + d) as char
  }

  /** The decimal spelling of a natural number: digits only, one of them exactly below ten. */
  function NatToString(n: nat): (r: string)
    ensures |r| >= 1 && (|r| == 1 <==> n < 10)
    ensures forall k :: 0 <= k < |r| ==> '0' <= r[k] <= '9'
    ensures r[0] != '-'
  {
    if n < 10 then [DigitChar(n)] else NatToString(n / 10) + [DigitChar(n % 10)]
  }

  /** Different numbers have different spellings. */
  lemma {:induction false} NatToStringInjective(a: nat, b: nat)
    requires NatToString(a) == NatToString(b)
    ensures a == b
  {
    if a >= 10 && b >= 10 {
      var sa, sb := NatToString(a), NatToString(b);
      assert sa[..|sa| - 1] == NatToString(a / 10);
      assert sb[..|sb| - 1] == NatToString(b / 10);
      NatToStringInjective(a / 10, b / 10);
      assert DigitChar(a % 10) == sa[|sa| - 1] == sb[|sb| - 1] == DigitChar(b % 10);
    }
  }

  /** The decimal spelling of an integer, as a template literal writes it. */
  function IntToString(i: int): string
  {
    if i < 0 then "-" + NatToString(-i) else NatToString(i)
  }

  /** Different integers have different spellings: only a negative one starts with '-'. */
  lemma IntToStringInjective(i: int, j: int)
    requires IntToString(i) == IntToString(j)
    ensures i == j
  {
    if i < 0 && j < 0 {
      assert NatToString(-i) == IntToString(i)[1..] == IntToString(j)[1..] == NatToString(-j);
      NatToStringInjective(-i, -j);
    } else if i >= 0 && j >= 0 {
      NatToStringInjective(i, j);
    }
  }

  /** The identity of an event: `blockHash:logIndex`. */
  function EventKey(blockHash: string, logIndex: int): string
  {
    blockHash + ":" + IntToString(logIndex)
  }

  /** Block hashes all have the same length, so distinct events (a different block or a
      different log index) have distinct keys. */
  lemma EventKeyInjective(h1: string, i1: int, h2: string, i2: int)
    requires |h1| == |h2|
    requires EventKey(h1, i1) == EventKey(h2, i2)
    ensures h1 == h2 && i1 == i2
  {
    var k1, k2 := EventKey(h1, i1), EventKey(h2, i2);
    assert h1 == k1[..|h1|] == k2[..|h2|] == h2;
    assert IntToString(i1) == k1[|h1| + 1..] == k2[|h2| + 1..] == IntToString(i2);
    IntToStringInjective(i1, i2);
  }

  // ----- dispatch of one event -----

  /** The chain's answers while one event is dispatched: polls for the wait on a leftover
      transaction, the first submission, and polls for the wait on the new one. */
  datatype HandleOracle = HandleOracle(priorPolls: seq<Obs>, submission: Submission, ownPolls: seq<Obs>)

  /** How the dispatch of one event ended. The two `StillPending` outcomes stand for a wait
      whose observations ran out (the source would still be polling). */
  datatype PingOutcome =
    | AlreadyProcessed
    | NotAfterCursor
    | Handled(how: Resolution)
    | PriorStillPending
    | OwnStillPending

  /** The record of a first submission for the event `key` (src/handler.ts:124-138):
      nonce, hash and block from the chain, fees priced without a prior, and no
      replacement yet. */
  function NewPendingTx(key: string, pongArg: string, s: Submission, cfg: BotConfig): (r: PendingTx)
    ensures r.pingKey == key && r.pongArg == pongArg && r.replacements == 0
    ensures r.nonce == s.nonce && r.txHash == s.txHash && r.sentAtBlock == s.blockNumber
    ensures r.maxPriorityFeePerGas == cfg.priorityFee
    ensures cfg.priorityFee >= 0 && (s.baseFee.None? || s.baseFee.value >= 0) ==>
      r.maxFeePerGas >= r.maxPriorityFeePerGas
  {
    var fees := ComputeFees(s.baseFee, cfg.priorityFee, None);
    PendingTx(s.nonce, s.txHash, key, s.blockNumber, fees.maxFeePerGas,
              fees.maxPriorityFeePerGas, 0, pongArg)
  }

  /** What `handlePing` does to the trace `t` (src/handler.ts:90-146): a known key and a
      position at or before the cursor are skipped; otherwise a leftover is waited on, the
      Pong for the event is submitted and waited on, and a resolved Pong moves the cursor
      onto the event. */
  function PingEffect(t: Trace, log: LogEvent, oracle: HandleOracle, cfg: BotConfig): (PingOutcome, Trace)
  {
    var key := EventKey(log.blockHash, log.logIndex);
    if key in t.value.recentProcessedKeys then (AlreadyProcessed, t)
    else if !CursorLess(t.value.lastProcessedBlock, t.value.lastProcessedLogIndex,
                        log.blockNumber, log.logIndex) then (NotAfterCursor, t)
    else
      var prior := Await(t, oracle.priorPolls, cfg);
      if prior.0.StillPending? then (PriorStillPending, prior.1)
      else
        var tx := NewPendingTx(key, log.transactionHash, oracle.submission, cfg);
        var own := Await(Submitted(prior.1, tx), oracle.ownPolls, cfg);
        if own.0.StillPending? then (OwnStillPending, own.1)
        else (Handled(own.0.how),
              own.1.(value := own.1.value.(lastProcessedBlock := log.blockNumber,
                                           lastProcessedLogIndex := log.logIndex)))
  }

  /** What `handlePing` decides, as an if-and-only-if per outcome: a known key is
      `AlreadyProcessed`; a new key not after the cursor is `NotAfterCursor`, and both skips
      change nothing; a new key after the cursor stalls on the leftover exactly when a
      leftover is there and none of its polls resolves it, stalls on its own Pong exactly
      when none of the own polls resolves the new record, and is otherwise `Handled` with the
      resolution of the first own poll that resolves. */
  lemma PingEffectDecides(t: Trace, log: LogEvent, oracle: HandleOracle, cfg: BotConfig)
    ensures var key := EventKey(log.blockHash, log.logIndex);
      var isNew := key !in t.value.recentProcessedKeys
        && CursorLess(t.value.lastProcessedBlock, t.value.lastProcessedLogIndex, log.blockNumber, log.logIndex);
      var prior := t.value.pendingTx;
      var priorRuns := prior.Some? && FirstResolving(prior.value, oracle.priorPolls, cfg) == |oracle.priorPolls|;
      var tx := NewPendingTx(key, log.transactionHash, oracle.submission, cfg);
      var n := FirstResolving(tx, oracle.ownPolls, cfg);
      var (o, u) := PingEffect(t, log, oracle, cfg);
      && (o == AlreadyProcessed <==> key in t.value.recentProcessedKeys)
      && (o == NotAfterCursor <==>
            key !in t.value.recentProcessedKeys
            && !CursorLess(t.value.lastProcessedBlock, t.value.lastProcessedLogIndex, log.blockNumber, log.logIndex))
      && (o == AlreadyProcessed || o == NotAfterCursor ==> u == t)
      && (o == PriorStillPending <==> isNew && priorRuns)
      && (o == OwnStillPending <==> isNew && !priorRuns && n == |oracle.ownPolls|)
      && (o.Handled? <==> isNew && !priorRuns && n < |oracle.ownPolls|)
      && (o.Handled? ==> Decide(tx, oracle.ownPolls[n], cfg) == Resolve(o.how))
  {
  }

  /** Single flight, on the log of broadcasts from `before` to `after`: first only
      replacements of the leftover `prior`, then the new transaction `tx`, then only
      replacements of `tx`. */
  predicate SingleFlight(before: seq<PendingTx>, after: seq<PendingTx>, prior: Option<PendingTx>, tx: PendingTx)
  {
    exists m :: |before| <= m < |after| && after[m] == tx
      && (prior.None? ==> m == |before|)
      && (prior.Some? ==> forall k :: |before| <= k < m ==> IsReplacementOf(prior.value, after[k]))
      && (forall k :: m < k < |after| ==> IsReplacementOf(tx, after[k]))
  }

  /** `SingleFlight` holds when the log `mid` after the leftover's wait holds only its
      replacements and the log after the new transaction's wait extends `mid` with the new
      transaction and its replacements. */
  lemma SingleFlightAt(before: seq<PendingTx>, mid: seq<PendingTx>, after: seq<PendingTx>,
                       prior: Option<PendingTx>, tx: PendingTx)
    requires before <= mid <= after && |mid| < |after| && after[|mid|] == tx
    requires prior.None? ==> mid == before
    requires prior.Some? ==> forall k :: |before| <= k < |mid| ==> IsReplacementOf(prior.value, mid[k])
    requires forall k :: |mid| < k < |after| ==> IsReplacementOf(tx, after[k])
    ensures SingleFlight(before, after, prior, tx)
  {
    if prior.Some? {
      forall k | |before| <= k < |mid|
        ensures IsReplacementOf(prior.value, after[k])
      {
        assert after[k] == mid[k];
      }
    }
  }

  /** What dispatching an event broadcasts (src/handler.ts:120-145): the logs only grow; a
      stall on the leftover sends only its replacements; an event whose own Pong was sent
      is single flight, and that Pong has replacement count zero, the event's key and the
      event's transaction hash as argument. */
  lemma PingEffectSends(t: Trace, log: LogEvent, oracle: HandleOracle, cfg: BotConfig)
    ensures var key := EventKey(log.blockHash, log.logIndex);
      var tx := NewPendingTx(key, log.transactionHash, oracle.submission, cfg);
      var e := PingEffect(t, log, oracle, cfg);
      && t.broadcasts <= e.1.broadcasts && t.persisted <= e.1.persisted
      && (e.0 == PriorStillPending ==>
            forall k :: |t.broadcasts| <= k < |e.1.broadcasts| ==>
              IsReplacementOf(t.value.pendingTx.value, e.1.broadcasts[k]))
      && (e.0.Handled? || e.0 == OwnStillPending ==>
            && SingleFlight(t.broadcasts, e.1.broadcasts, t.value.pendingTx, tx)
            && tx.replacements == 0 && tx.pingKey == key && tx.pongArg == log.transactionHash)
  {
    var key := EventKey(log.blockHash, log.logIndex);
    var tx := NewPendingTx(key, log.transactionHash, oracle.submission, cfg);
    var prior := Await(t, oracle.priorPolls, cfg);
    if t.value.pendingTx.Some? {
      WaitEffectLogs(t, t.value.pendingTx.value, oracle.priorPolls, cfg);
    }
    assert t.broadcasts <= prior.1.broadcasts && t.persisted <= prior.1.persisted;
    if key !in t.value.recentProcessedKeys
      && CursorLess(t.value.lastProcessedBlock, t.value.lastProcessedLogIndex, log.blockNumber, log.logIndex)
      && !prior.0.StillPending?
    {
      var mid := Submitted(prior.1, tx);
      var own := Await(mid, oracle.ownPolls, cfg);
      WaitEffectLogs(mid, tx, oracle.ownPolls, cfg);
      assert own.1.broadcasts[|prior.1.broadcasts|] == tx;
      assert PingEffect(t, log, oracle, cfg).1.broadcasts == own.1.broadcasts;
      assert PingEffect(t, log, oracle, cfg).1.persisted == own.1.persisted;
      SingleFlightAt(t.broadcasts, prior.1.broadcasts, own.1.broadcasts, t.value.pendingTx, tx);
    }
  }

  /** What dispatching an event leaves in the document (src/handler.ts:120-145). A stall on
      the leftover keeps it, or a replacement of it, in the slot and the keys as they
      were. A stall on the own Pong keeps a record in the slot and the keys as the
      leftover's resolution left them. A handled event ends with the slot empty, its key
      marked after the leftover's, and the cursor on the event. Only a handled event moves
      the cursor; the start block stays and a sound window stays sound. */
  lemma PingEffectLeaves(t: Trace, log: LogEvent, oracle: HandleOracle, cfg: BotConfig)
    ensures var key := EventKey(log.blockHash, log.logIndex);
      var prior := t.value.pendingTx;
      var e := PingEffect(t, log, oracle, cfg);
      var u := e.1.value;
      && (e.0 == PriorStillPending ==>
            && prior.Some? && u.pendingTx.Some?
            && (u.pendingTx.value == prior.value || IsReplacementOf(prior.value, u.pendingTx.value))
            && u.recentProcessedKeys == t.value.recentProcessedKeys)
      && (e.0 == OwnStillPending ==>
            && u.pendingTx.Some?
            && u.recentProcessedKeys == KeysAfterResolving(prior, t.value.recentProcessedKeys, cfg.recentSetSize))
      && (e.0.Handled? ==>
            && u.pendingTx.None?
            && u.recentProcessedKeys
               == MarkedKeys(KeysAfterResolving(prior, t.value.recentProcessedKeys, cfg.recentSetSize), key, cfg.recentSetSize)
            && u.lastProcessedBlock == log.blockNumber
            && u.lastProcessedLogIndex == log.logIndex)
      && (!e.0.Handled? ==>
            u.lastProcessedBlock == t.value.lastProcessedBlock
            && u.lastProcessedLogIndex == t.value.lastProcessedLogIndex)
      && u.startBlock == t.value.startBlock
      && (WindowSound(t.value.recentProcessedKeys, cfg.recentSetSize) ==>
            WindowSound(u.recentProcessedKeys, cfg.recentSetSize))
  {
    var key := EventKey(log.blockHash, log.logIndex);
    if key !in t.value.recentProcessedKeys
      && CursorLess(t.value.lastProcessedBlock, t.value.lastProcessedLogIndex, log.blockNumber, log.logIndex)
    {
      var tx := NewPendingTx(key, log.transactionHash, oracle.submission, cfg);
      var prior := Await(t, oracle.priorPolls, cfg);
      if t.value.pendingTx.Some? {
        WaitEffectMeans(t, t.value.pendingTx.value, oracle.priorPolls, cfg);
      }
      if !prior.0.StillPending? {
        var mid := Submitted(prior.1, tx);
        var own := Await(mid, oracle.ownPolls, cfg);
        WaitEffectMeans(mid, tx, oracle.ownPolls, cfg);
        assert prior.1.value.recentProcessedKeys
          == KeysAfterResolving(t.value.pendingTx, t.value.recentProcessedKeys, cfg.recentSetSize);
        if own.0.StillPending? {
          assert PingEffect(t, log, oracle, cfg) == (OwnStillPending, own.1);
        } else {
          assert PingEffect(t, log, oracle, cfg).1.value
            == own.1.value.(lastProcessedBlock := log.blockNumber, lastProcessedLogIndex := log.logIndex);
        }
      }
    }
  }

  /** Every step of `handlePing` is a step forward: the start block stays, the cursor never
      moves back, the logs only grow, and a sound window stays sound. */
  lemma PingEffectAdvances(t: Trace, log: LogEvent, oracle: HandleOracle, cfg: BotConfig)
    ensures Advanced(t, PingEffect(t, log, oracle, cfg).1, cfg.recentSetSize)
  {
    PingEffectSends(t, log, oracle, cfg);
    PingEffectLeaves(t, log, oracle, cfg);
  }

  /** A leftover that belongs to the event being dispatched is resolved, which marks the
      event's key, and then a second Pong is still submitted for the same event: nothing
      between the wait on the leftover and the submission consults the window again. A
      handled event then leaves the window as the leftover's resolution left it. */
  lemma LeftoverOfSameEventResubmitted(t: Trace, log: LogEvent, oracle: HandleOracle, cfg: BotConfig)
    requires EventKey(log.blockHash, log.logIndex) !in t.value.recentProcessedKeys
    requires CursorLess(t.value.lastProcessedBlock, t.value.lastProcessedLogIndex, log.blockNumber, log.logIndex)
    requires t.value.pendingTx.Some?
    requires t.value.pendingTx.value.pingKey == EventKey(log.blockHash, log.logIndex)
    requires PingEffect(t, log, oracle, cfg).0 != PriorStillPending
    requires cfg.recentSetSize >= 1
    ensures var u := PingEffect(t, log, oracle, cfg).1;
      exists m :: |t.broadcasts| <= m < |u.broadcasts|
        && u.broadcasts[m] == NewPendingTx(t.value.pendingTx.value.pingKey, log.transactionHash, oracle.submission, cfg)
    ensures EventKey(log.blockHash, log.logIndex)
      in KeysAfterResolving(t.value.pendingTx, t.value.recentProcessedKeys, cfg.recentSetSize)
    ensures PingEffect(t, log, oracle, cfg).0.Handled? ==>
      PingEffect(t, log, oracle, cfg).1.value.recentProcessedKeys
      == KeysAfterResolving(t.value.pendingTx, t.value.recentProcessedKeys, cfg.recentSetSize)
  {
    var key := EventKey(log.blockHash, log.logIndex);
    var keysAfterPrior := KeysAfterResolving(t.value.pendingTx, t.value.recentProcessedKeys, cfg.recentSetSize);
    PingEffectSends(t, log, oracle, cfg);
    PingEffectLeaves(t, log, oracle, cfg);
    MarkedKeysEndsWithKey(t.value.recentProcessedKeys, key, cfg.recentSetSize);
    MarkedKeysUnchangedWhenLast(keysAfterPrior, key, cfg.recentSetSize);
  }

  /** Broadcasts the first Pong for an event and records it in the empty slot; nothing is
      persisted at this point. */
  method SubmitPong(state: BotState, key: string, pongArg: string, s: Submission, cfg: BotConfig)
    returns (tx: PendingTx)
    modifies state
    ensures tx == NewPendingTx(key, pongArg, s, cfg)
    ensures state.Footprint() == Submitted(old(state.Footprint()), tx)
  {
    tx := NewPendingTx(key, pongArg, s, cfg);
    state.broadcasts := state.broadcasts + [tx];
    state.pendingTx := Some(tx);
  }

  /** `handlePing` (src/handler.ts:90-146): skip a known key or a position at or before the
      cursor; otherwise dispatch the event with `ProcessPing`. `submitted` is the record of
      the new submission, when there was one. */
  method HandlePing(state: BotState, log: LogEvent, oracle: HandleOracle, cfg: BotConfig)
    returns (outcome: PingOutcome, submitted: Option<PendingTx>)
    modifies state
    ensures (outcome, state.Footprint()) == PingEffect(old(state.Footprint()), log, oracle, cfg)
    ensures submitted.Some? <==> outcome.Handled? || outcome == OwnStillPending
    ensures submitted.Some? ==>
      submitted.value == NewPendingTx(EventKey(log.blockHash, log.logIndex), log.transactionHash, oracle.submission, cfg)
  {
    var key := EventKey(log.blockHash, log.logIndex);
    if state.WasProcessed(key) {
      return AlreadyProcessed, None;
    }
    var isAfterCursor := log.blockNumber > state.lastProcessedBlock
      || (log.blockNumber == state.lastProcessedBlock && log.logIndex > state.lastProcessedLogIndex);
    if !isAfterCursor {
      return NotAfterCursor, None;
    }
    outcome, submitted := ProcessPing(state, log, oracle, cfg);
  }

  /** The body of `handlePing` for an event that is new and after the cursor
      (src/handler.ts:120-145): wait on a leftover, then submit the event's Pong and wait on
      it, and move the cursor onto the event once it is resolved. */
  method ProcessPing(state: BotState, log: LogEvent, oracle: HandleOracle, cfg: BotConfig)
    returns (outcome: PingOutcome, submitted: Option<PendingTx>)
    requires EventKey(log.blockHash, log.logIndex) !in state.recentProcessedKeys
    requires CursorLess(state.lastProcessedBlock, state.lastProcessedLogIndex, log.blockNumber, log.logIndex)
    modifies state
    ensures (outcome, state.Footprint()) == PingEffect(old(state.Footprint()), log, oracle, cfg)
    ensures submitted.Some? <==> outcome.Handled? || outcome == OwnStillPending
    ensures submitted.Some? ==>
      submitted.value == NewPendingTx(EventKey(log.blockHash, log.logIndex), log.transactionHash, oracle.submission, cfg)
  {
    var key := EventKey(log.blockHash, log.logIndex);
    if state.pendingTx.Some? {
      var prior := WaitForPendingTx(state, oracle.priorPolls, cfg);
      if prior.StillPending? {
        return PriorStillPending, None;
      }
    }
    ghost var resolved := state.Footprint();
    assert resolved == Await(old(state.Footprint()), oracle.priorPolls, cfg).1;
    var tx := SubmitPong(state, key, log.transactionHash, oracle.submission, cfg);
    submitted := Some(tx);
    var own := WaitForPendingTx(state, oracle.ownPolls, cfg);
    if own.StillPending? {
      return OwnStillPending, submitted;
    }
    state.lastProcessedBlock := log.blockNumber;
    state.lastProcessedLogIndex := log.logIndex;
    return Handled(own.how), submitted;
  }
}
