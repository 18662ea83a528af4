/** The persisted engine state, the dedup window over recently handled event keys, and the
    cursor order (src/state.ts). */
module State {
  import opened Common

  /** The single outstanding Pong transaction. The fee fields are exact integers (the
      source keeps their decimal strings and converts them back with `BigInt`). */
  datatype PendingTx = PendingTx(
    nonce: int,
    txHash: string,
    pingKey: string,
    sentAtBlock: int,
    maxFeePerGas: int,
    maxPriorityFeePerGas: int,
    replacements: int,
    pongArg: string)

  /** One version of the persisted document: the value of every field of the state. */
  datatype Snapshot = Snapshot(
    startBlock: int,
    lastProcessedBlock: int,
    lastProcessedLogIndex: int,
    recentProcessedKeys: seq<string>,
    pendingTx: Option<PendingTx>)

  /** The document a fresh installation starts from (the fallback of `readState`). */
  function FreshSnapshot(startBlock: int): Snapshot
  {
    Snapshot(startBlock, startBlock - 1, -1, [], None)
  }

  // ----- sequence vocabulary for the dedup window -----

  predicate NoDup(s: seq<string>)
  {
    forall i, j :: 0 <= i < j < |s| ==> s[i] != s[j]
  }

  /** `Array.prototype.indexOf`: the first position of `x`, or -1. */
  function IndexOf(s: seq<string>, x: string): (i: int)
    ensures -1 <= i < |s|
    ensures i == -1 <==> x !in s
    ensures 0 <= i ==> s[i] == x && forall k :: 0 <= k < i ==> s[k] != x
  {
    if s == [] then -1
    else if s[0] == x then 0
    else
      var j := IndexOf(s[1..], x);
      if j < 0 then -1 else j + 1
  }

  /** The sequence without the first occurrence of `x` (what `indexOf` + `splice(idx, 1)`
      leaves). */
  function RemoveFirst(s: seq<string>, x: string): (r: seq<string>)
    ensures x !in s ==> r == s
    ensures x in s ==> |r| == |s| - 1
    ensures forall y :: y in r ==> y in s
  {
    if s == [] then []
    else if s[0] == x then s[1..]
    else [s[0]] + RemoveFirst(s[1..], x)
  }

  /** The sequence with every occurrence of `x` dropped, others in their order: an
      independent reference for the dedup window. */
  function Without(s: seq<string>, x: string): (r: seq<string>)
    ensures |r| <= |s|
    ensures forall y :: y in r <==> y in s && y != x
  {
    if s == [] then []
    else (if s[0] == x then [] else [s[0]]) + Without(s[1..], x)
  }

  /** The last `n` elements (all of them when there are fewer). */
  function LastN(s: seq<string>, n: nat): (r: seq<string>)
    ensures |r| == Min(|s|, n)
    ensures r == s[|s| - |r|..]
  {
    if |s| > n then s[|s| - n..] else s
  }

  /** The window after marking `key` (src/state.ts:50-62): unchanged when `key` is already
      last, otherwise `key` is moved to (or appended at) the back and the window is cut
      from the front to `cap` entries. */
  function MarkedKeys(keys: seq<string>, key: string, cap: nat): seq<string>
  {
    if |keys| > 0 && keys[|keys| - 1] == key then keys
    else LastN(RemoveFirst(keys, key) + [key], cap)
  }

  // ----- properties of the dedup window -----

  lemma MarkedKeysEndsWithKey(keys: seq<string>, key: string, cap: nat)
    requires cap >= 1
    ensures var r := MarkedKeys(keys, key, cap); |r| > 0 && r[|r| - 1] == key
  {
  }

  lemma MarkedKeysUnchangedWhenLast(keys: seq<string>, key: string, cap: nat)
    requires |keys| > 0 && keys[|keys| - 1] == key
    ensures MarkedKeys(keys, key, cap) == keys
  {
  }

  lemma {:induction false} RemoveFirstNoDup(s: seq<string>, x: string)
    requires NoDup(s)
    ensures NoDup(RemoveFirst(s, x)) && x !in RemoveFirst(s, x)
    ensures RemoveFirst(s, x) == Without(s, x)
  {
    if s != [] {
      var tail := s[1..];
      assert NoDup(tail) by {
        forall i, j | 0 <= i < j < |tail| ensures tail[i] != tail[j] {
          assert tail[i] == s[i + 1] && tail[j] == s[j + 1];
        }
      }
      forall k | 0 <= k < |tail| ensures tail[k] != s[0] {
        assert tail[k] == s[k + 1];
      }
      RemoveFirstNoDup(tail, x);
      if s[0] == x {
        WithoutAbsent(tail, x);
      } else {
        var t := RemoveFirst(tail, x);
        var r := [s[0]] + t;
        assert s[0] !in t;
        forall i, j | 0 <= i < j < |r| ensures r[i] != r[j] {
          if i > 0 {
            assert r[i] == t[i - 1] && r[j] == t[j - 1];
          } else {
            assert r[j] == t[j - 1];
          }
        }
      }
    }
  }

  lemma {:induction false} WithoutAbsent(s: seq<string>, x: string)
    requires x !in s
    ensures Without(s, x) == s
  {
    if s != [] {
      WithoutAbsent(s[1..], x);
    }
  }

  lemma SuffixNoDup(s: seq<string>, k: nat)
    requires NoDup(s) && k <= |s|
    ensures NoDup(s[k..])
  {
    forall i, j | 0 <= i < j < |s[k..]| ensures s[k..][i] != s[k..][j] {
      assert s[k..][i] == s[k + i] && s[k..][j] == s[k + j];
    }
  }

  lemma AppendFreshNoDup(s: seq<string>, x: string)
    requires NoDup(s) && x !in s
    ensures NoDup(s + [x])
  {
    var t := s + [x];
    forall i, j | 0 <= i < j < |t| ensures t[i] != t[j] {
      assert t[i] == s[i];
      if j == |s| {
        assert t[j] == x;
      } else {
        assert t[j] == s[j];
      }
    }
  }

  /** Marking keeps the window free of duplicates. */
  lemma MarkedKeysNoDup(keys: seq<string>, key: string, cap: nat)
    requires NoDup(keys)
    ensures NoDup(MarkedKeys(keys, key, cap))
  {
    if !(|keys| > 0 && keys[|keys| - 1] == key) {
      RemoveFirstNoDup(keys, key);
      var t := RemoveFirst(keys, key) + [key];
      AppendFreshNoDup(RemoveFirst(keys, key), key);
      SuffixNoDup(t, |t| - |LastN(t, cap)|);
    }
  }

  /** Re-marking a key that is already present never grows the window. */
  lemma MarkedKeysNoGrowth(keys: seq<string>, key: string, cap: nat)
    requires key in keys
    ensures |MarkedKeys(keys, key, cap)| <= |keys|
  {
  }

  /** A window within its capacity stays within it. */
  lemma MarkedKeysBounded(keys: seq<string>, key: string, cap: nat)
    requires |keys| <= cap
    ensures |MarkedKeys(keys, key, cap)| <= cap
  {
  }

  /** What marking means, stated without the early return or `indexOf`: on a window that
      has no duplicates and respects its capacity, the result is the last `cap` entries of
      the other keys, in their old order, followed by `key`. Eviction is from the front. */
  lemma MarkedKeysIsMoveToBack(keys: seq<string>, key: string, cap: nat)
    requires NoDup(keys) && |keys| <= cap
    ensures MarkedKeys(keys, key, cap) == LastN(Without(keys, key) + [key], cap)
  {
    if |keys| > 0 && keys[|keys| - 1] == key {
      var front := keys[..|keys| - 1];
      assert keys == front + [key];
      assert key !in front by {
        forall i | 0 <= i < |front| ensures front[i] != key {
          assert front[i] == keys[i];
        }
      }
      WithoutAppend(front, key);
      assert Without(keys, key) + [key] == keys;
    } else {
      RemoveFirstNoDup(keys, key);
    }
  }

  /** Dropping `x` from `s + [x]` when `s` has no `x` leaves `s`. */
  lemma {:induction false} WithoutAppend(s: seq<string>, x: string)
    requires x !in s
    ensures Without(s + [x], x) == s
  {
    if s == [] {
      assert [x][1..] == [];
    } else {
      assert (s + [x])[1..] == s[1..] + [x];
      WithoutAppend(s[1..], x);
    }
  }

  /** Removing the first occurrence at a known first position is slicing it out. */
  lemma {:induction false} RemoveFirstAt(s: seq<string>, x: string, i: nat)
    requires i < |s| && s[i] == x
    requires forall k :: 0 <= k < i ==> s[k] != x
    ensures RemoveFirst(s, x) == s[..i] + s[i + 1..]
  {
    if i > 0 {
      var tail := s[1..];
      assert tail[i - 1] == x;
      RemoveFirstAt(tail, x, i - 1);
      assert s[..i] == [s[0]] + tail[..i - 1];
      assert s[i + 1..] == tail[i..];
    }
  }

  /** `indexOf` followed by `splice(idx, 1)` when found is `RemoveFirst`. */
  lemma SpliceIsRemoveFirst(keys: seq<string>, key: string, idx: int, spliced: seq<string>)
    requires idx == IndexOf(keys, key)
    requires spliced == if idx >= 0 then keys[..idx] + keys[idx + 1..] else keys
    ensures spliced == RemoveFirst(keys, key)
  {
    if idx >= 0 {
      RemoveFirstAt(keys, key, idx);
    }
  }

  /** Only `key` can enter the window; every other member was there before. */
  lemma MarkedKeysMembers(keys: seq<string>, key: string, cap: nat, y: string)
    requires y in MarkedKeys(keys, key, cap)
    ensures y == key || y in keys
  {
    var r := MarkedKeys(keys, key, cap);
    if !(|keys| > 0 && keys[|keys| - 1] == key) {
      var t := RemoveFirst(keys, key) + [key];
      assert y in t;
    }
  }

  /** A fresh cursor lies before every position at or after the start block. */
  lemma FreshCursorPrecedesStart(startBlock: int, blockNumber: int, logIndex: int)
    requires blockNumber >= startBlock
    ensures var s := FreshSnapshot(startBlock);
      CursorLess(s.lastProcessedBlock, s.lastProcessedLogIndex, blockNumber, logIndex)
  {
  }

  // ----- the mutable state object -----

  /** The dedup window has no duplicates and respects its capacity. */
  predicate WindowSound(keys: seq<string>, cap: nat)
  {
    NoDup(keys) && |keys| <= cap
  }

  /** The engine's state together with its instrumentation: the persisted document, every
      Pong sent and every document written. */
  datatype Trace = Trace(value: Snapshot, broadcasts: seq<PendingTx>, persisted: seq<Snapshot>)

  /** The trace after `writeState`: the current document is appended to the persisted log. */
  function Written(t: Trace): Trace
  {
    t.(persisted := t.persisted + [t.value])
  }

  /** What every step of the engine keeps between the state before and the state after:
      the start block, a cursor that never moves back, logs that only grow, and the
      invariant of the dedup window. */
  predicate Advanced(a: Trace, b: Trace, cap: nat)
  {
    && b.value.startBlock == a.value.startBlock
    && CursorLeq(a.value.lastProcessedBlock, a.value.lastProcessedLogIndex,
                 b.value.lastProcessedBlock, b.value.lastProcessedLogIndex)
    && a.broadcasts <= b.broadcasts
    && a.persisted <= b.persisted
    && (WindowSound(a.value.recentProcessedKeys, cap) ==> WindowSound(b.value.recentProcessedKeys, cap))
  }

  /** Steps compose: two steps forward are one step forward. */
  lemma AdvancedTransitive(a: Trace, b: Trace, c: Trace, cap: nat)
    requires Advanced(a, b, cap) && Advanced(b, c, cap)
    ensures Advanced(a, c, cap)
  {
  }

  /** The engine's state, updated in place by the handler and the scan loop. The two ghost
      fields are instrumentation: `persisted` is the sequence of documents written by
      `WriteState` and `broadcasts` the sequence of every Pong transaction sent. */
  class BotState {
    var startBlock: int
    var lastProcessedBlock: int
    var lastProcessedLogIndex: int
    var recentProcessedKeys: seq<string>
    var pendingTx: Option<PendingTx>
    ghost var persisted: seq<Snapshot>
    ghost var broadcasts: seq<PendingTx>

    function Value(): Snapshot
      reads this`startBlock, this`lastProcessedBlock, this`lastProcessedLogIndex,
            this`recentProcessedKeys, this`pendingTx
    {
      Snapshot(startBlock, lastProcessedBlock, lastProcessedLogIndex,
               recentProcessedKeys, pendingTx)
    }

    /** The state and its instrumentation, as a value. */
    ghost function Footprint(): Trace
      reads this
    {
      Trace(Value(), broadcasts, persisted)
    }

    /** `readState`: the stored document when there is a readable one, otherwise the
        fresh defaults with the cursor just before `startBlock` (src/state.ts:26-38). */
    constructor Load(stored: Option<Snapshot>, startBlock: int)
      ensures stored.Some? ==> Value() == stored.value
      ensures stored.None? ==>
        && this.startBlock == startBlock
        && lastProcessedBlock == startBlock - 1 && lastProcessedLogIndex == -1
        && recentProcessedKeys == [] && pendingTx.None?
      ensures stored.None? ==> forall cap: nat :: WindowSound(recentProcessedKeys, cap)
      ensures persisted == [] && broadcasts == []
    {
      var s := if stored.Some? then stored.value else FreshSnapshot(startBlock);
      this.startBlock := s.startBlock;
      lastProcessedBlock := s.lastProcessedBlock;
      lastProcessedLogIndex := s.lastProcessedLogIndex;
      recentProcessedKeys := s.recentProcessedKeys;
      pendingTx := s.pendingTx;
      persisted := [];
      broadcasts := [];
    }

    /** `wasProcessed`: the key is one of the window's entries. */
    function WasProcessed(key: string): (r: bool)
      reads this`recentProcessedKeys
      ensures r <==> exists i :: 0 <= i < |recentProcessedKeys| && recentProcessedKeys[i] == key
    {
      key in recentProcessedKeys
    }

    /** `markProcessed`: updates only the window. */
    method MarkProcessed(key: string, recentSetSize: nat)
      modifies this`recentProcessedKeys
      ensures recentProcessedKeys == MarkedKeys(old(recentProcessedKeys), key, recentSetSize)
    {
      var arr := recentProcessedKeys;
      if |arr| > 0 && arr[|arr| - 1] == key {
        return;
      }
      var idx := IndexOf(arr, key);
      if idx >= 0 {
        arr := arr[..idx] + arr[idx + 1..];
      }
      SpliceIsRemoveFirst(recentProcessedKeys, key, idx, arr);
      arr := arr + [key];
      ghost var moved := arr;
      if |arr| > recentSetSize {
        arr := arr[|arr| - recentSetSize..];
      }
      assert arr == LastN(moved, recentSetSize);
      recentProcessedKeys := arr;
    }

    /** `writeState`: the current value becomes the latest persisted document. */
    method WriteState()
      modifies this`persisted
      ensures persisted == old(persisted) + [Value()]
    {
      persisted := persisted + [Value()];
    }
  }
}
