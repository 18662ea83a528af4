/** Fetching, normalising and ordering the contract's Ping logs (src/scanner.ts). */
module Scanner {
  import opened Common

  /** A log as the RPC client reports it. */
  datatype RawLog = RawLog(
    address: string, blockHash: string, blockNumber: int, transactionHash: string,
    index: int, topics: seq<string>, data: string)

  /** A normalised log event. */
  datatype LogEvent = LogEvent(
    address: string, blockHash: string, blockNumber: int, transactionHash: string,
    logIndex: int, topics: seq<string>, data: string)

  /** The query cap of `getLogs`. */
  const MAX_ATTEMPTS: nat := 10
  /** The first backoff unit and the backoff ceiling, in milliseconds. */
  const BACKOFF_BASE_MS: int := 1000
  const BACKOFF_CAP_MS: int := 15000

  /** The random part of a wait: a whole number of milliseconds in [0, 500). */
  type Jitter = j: int | 0 <= j < 500

  /** The answer of the k-th `eth_getLogs` call for a block range: the logs, or a failure. */
  type LogQuery = (int, int, nat) -> Option<seq<RawLog>>

  // ----- normalisation -----

  function ToLowerChar(c: char): char
  {
    if 'A' <= c <= 'Z' then (c as int + 32) as char else c
  }

  /** Lower-casing of a string (ASCII letters; addresses are hexadecimal). */
  function ToLower(s: string): (r: string)
    ensures |r| == |s|
    ensures forall i :: 0 <= i < |s| ==> r[i] == ToLowerChar(s[i])
  {
    if s == [] then [] else [ToLowerChar(s[0])] + ToLower(s[1..])
  }

  /** Lower-casing twice is lower-casing once: a normalised address is already in lower
      case. */
  lemma ToLowerIdempotent(s: string)
    ensures ToLower(ToLower(s)) == ToLower(s)
  {
  }

  /** The mapping applied to each raw log: address lower-cased, `index` renamed
      `logIndex`, everything else kept. */
  function Normalize(raw: RawLog): LogEvent
  {
    LogEvent(ToLower(raw.address), raw.blockHash, raw.blockNumber, raw.transactionHash,
             raw.index, raw.topics, raw.data)
  }

  /** `logs.map(...)`: one entry per raw log, in the same order. */
  function NormalizeAll(raws: seq<RawLog>): (r: seq<LogEvent>)
    ensures |r| == |raws|
    ensures forall i :: 0 <= i < |raws| ==>
      && r[i].address == ToLower(raws[i].address)
      && r[i].logIndex == raws[i].index
      && r[i].blockNumber == raws[i].blockNumber
      && r[i].blockHash == raws[i].blockHash
      && r[i].transactionHash == raws[i].transactionHash
      && r[i].topics == raws[i].topics && r[i].data == raws[i].data
  {
    if raws == [] then [] else [Normalize(raws[0])] + NormalizeAll(raws[1..])
  }

  // ----- ordering -----

  /** (blockNumber, logIndex) order, as the comparator of `sortLogs` defines it. */
  predicate PosLess(a: LogEvent, b: LogEvent)
  {
    CursorLess(a.blockNumber, a.logIndex, b.blockNumber, b.logIndex)
  }

  predicate PosLeq(a: LogEvent, b: LogEvent)
  {
    !PosLess(b, a)
  }

  predicate SortedByPosition(s: seq<LogEvent>)
  {
    forall i, j :: 0 <= i < j < |s| ==> PosLeq(s[i], s[j])
  }

  /** `sortLogs`: sorts the array in place, ascending by (blockNumber, logIndex). */
  method SortLogs(a: array<LogEvent>)
    modifies a
    ensures SortedByPosition(a[..])
    ensures multiset(a[..]) == multiset(old(a[..]))
  {
    var i := 0;
    while i < a.Length
      invariant 0 <= i <= a.Length
      invariant forall k, l :: 0 <= k < l < i ==> PosLeq(a[k], a[l])
      invariant multiset(a[..]) == multiset(old(a[..]))
    {
      var j := i;
      while j > 0 && PosLess(a[j], a[j - 1])
        invariant 0 <= j <= i
        invariant forall k, l :: 0 <= k < l <= i && k != j && l != j ==> PosLeq(a[k], a[l])
        invariant forall l :: j < l <= i ==> PosLess(a[j], a[l])
        invariant multiset(a[..]) == multiset(old(a[..]))
      {
        a[j], a[j - 1] := a[j - 1], a[j];
        j := j - 1;
      }
      i := i + 1;
    }
  }

  // ----- retry with backoff -----

  function Pow2(n: nat): (r: nat)
    ensures r >= 1
  {
    if n == 0 then 1 else 2 * Pow2(n - 1)
  }

  lemma {:induction false} Pow2Monotone(m: nat, n: nat)
    requires m <= n
    ensures Pow2(m) <= Pow2(n)
  {
    if m < n {
      Pow2Monotone(m, n - 1);
    }
  }

  /** The deterministic part of the wait after the `attempt`-th failure. */
  function BackoffDelay(attempt: nat): int
  {
    Min(BACKOFF_CAP_MS, BACKOFF_BASE_MS * Pow2(attempt))
  }

  /** After any failure the deterministic wait is between 2 and 15 seconds, and from the
      fourth failure on it is the ceiling. */
  lemma BackoffBounds(attempt: nat)
    requires attempt >= 1
    ensures 2000 <= BackoffDelay(attempt) <= BACKOFF_CAP_MS
    ensures attempt >= 4 ==> BackoffDelay(attempt) == BACKOFF_CAP_MS
  {
    Pow2Monotone(1, attempt);
    if attempt >= 4 {
      Pow2Monotone(4, attempt);
    }
  }

  /** The outcome of `getLogs`: the normalised logs, or the error thrown after the last
      allowed attempt. */
  datatype FetchResult = Fetched(logs: seq<LogEvent>) | GaveUp

  /** `getLogs` for `[fromBlock, toBlock]`: up to ten queries; after each failure but the
      last, a sleep of the capped exponential backoff plus jitter. `waits` are the sleeps
      performed, in order. */
  method GetLogs(query: LogQuery, fromBlock: int, toBlock: int, jitter: nat -> Jitter)
    returns (r: FetchResult, queries: nat, waits: seq<int>)
    ensures 1 <= queries <= MAX_ATTEMPTS
    ensures forall k :: 0 <= k < queries - 1 ==> query(fromBlock, toBlock, k).None?
    ensures r.Fetched? ==>
      && query(fromBlock, toBlock, queries - 1).Some?
      && r.logs == NormalizeAll(query(fromBlock, toBlock, queries - 1).value)
    ensures r.GaveUp? ==> queries == MAX_ATTEMPTS && query(fromBlock, toBlock, queries - 1).None?
    ensures |waits| == queries - 1
    ensures forall k :: 0 <= k < |waits| ==> waits[k] == BackoffDelay(k + 1) + jitter(k + 1)
    ensures forall k :: 0 <= k < |waits| ==> 2000 <= waits[k] <= 15499
  {
    var attempt: nat := 0;
    waits := [];
    while attempt < MAX_ATTEMPTS
      invariant attempt < MAX_ATTEMPTS
      invariant |waits| == attempt
      invariant forall k :: 0 <= k < attempt ==> query(fromBlock, toBlock, k).None?
      invariant forall k :: 0 <= k < attempt ==> waits[k] == BackoffDelay(k + 1) + jitter(k + 1)
      invariant forall k :: 0 <= k < attempt ==> 2000 <= waits[k] <= 15499
      decreases MAX_ATTEMPTS - attempt
    {
      var answer := query(fromBlock, toBlock, attempt);
      if answer.Some? {
        return Fetched(NormalizeAll(answer.value)), attempt + 1, waits;
      }
      attempt := attempt + 1;
      var waitTime := BackoffDelay(attempt) + jitter(attempt);
      if attempt >= MAX_ATTEMPTS {
        return GaveUp, attempt, waits;
      }
      BackoffBounds(attempt);
      waits := waits + [waitTime];
    }
    // The loop only ends through one of the two returns above.
    assert false;
  }
}
