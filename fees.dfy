/** Fee estimation for a new or replacement Pong transaction (src/fees.ts), in exact
    integer (bigint) arithmetic. */
module Fees {
  import opened Common

  /** The fixed bump applied to a prior fee on replacement. */
  const BUMP_PERCENT: nat := 12
  /** The base fee assumed when the latest block reports none: 1 gwei. */
  const ONE_GWEI: int := 1_000_000_000

  datatype FeeData = FeeData(maxFeePerGas: int, maxPriorityFeePerGas: int)
  datatype PriorFees = PriorFees(maxFee: int, maxPrio: int)

  /** Division of a bigint by a positive divisor, which rounds toward zero. */
  function TruncDiv(a: int, d: int): int
    requires d > 0
  {
    if a >= 0 then a / d else -((-a) / d)
  }

  /** `bumpByPercent`: multiply by `(100 + percent) * 1000`, then divide by 100000. */
  function BumpByPercent(value: int, percent: nat): int
  {
    TruncDiv(value * ((100 + percent) * 1000), 100_000)
  }

  /** The fixed 12% bump is `floor(v * 112 / 100)` for a non-negative value. */
  lemma BumpTwelveIsFloor(v: int)
    requires v >= 0
    ensures BumpByPercent(v, BUMP_PERCENT) == v * 112000 / 100000 == v * 112 / 100
  {
    var q, r := v * 112 / 100, v * 112 % 100;
    assert v * 112 == q * 100 + r && 0 <= r < 100;
    assert v * 112000 == q * 100000 + r * 1000;
    assert 0 <= r * 1000 < 100000;
  }

  /** Bumping never lowers a non-negative fee. */
  lemma BumpNotBelow(v: int)
    requires v >= 0
    ensures BumpByPercent(v, BUMP_PERCENT) >= v
  {
    BumpTwelveIsFloor(v);
  }

  /** Bumping raises a non-negative fee exactly when it is at least 9 wei; below that the
      12% increment rounds away. */
  lemma BumpRaisesIff(v: int)
    requires v >= 0
    ensures BumpByPercent(v, BUMP_PERCENT) > v <==> v >= 9
  {
    BumpTwelveIsFloor(v);
    var b := v * 112 / 100;
    if v >= 9 {
      assert v * 112 >= v * 100 + 100;
      assert b >= v + 1;
    } else {
      assert v * 112 < v * 100 + 100;
      assert b < v + 1;
    }
  }

  /** The base fee of the latest block, or 1 gwei when there is no block or no value. */
  function BaseFeeOrDefault(latestBaseFee: Option<int>): int
  {
    if latestBaseFee.Some? then latestBaseFee.value else ONE_GWEI
  }

  /** `computeFees`: the baseline `2 * baseFee + tip` with the configured tip; with a prior,
      each field is raised, independently, to at least the bumped prior value. */
  function ComputeFees(latestBaseFee: Option<int>, priorityFee: int, prior: Option<PriorFees>)
    : (r: FeeData)
    ensures prior.None? ==>
      r.maxPriorityFeePerGas == priorityFee
      && r.maxFeePerGas == 2 * BaseFeeOrDefault(latestBaseFee) + priorityFee
    ensures prior.Some? ==>
      var fee := 2 * BaseFeeOrDefault(latestBaseFee) + priorityFee;
      var minFee := BumpByPercent(prior.value.maxFee, BUMP_PERCENT);
      var minPrio := BumpByPercent(prior.value.maxPrio, BUMP_PERCENT);
      && r.maxFeePerGas >= minFee && r.maxFeePerGas >= fee
      && (r.maxFeePerGas == minFee || r.maxFeePerGas == fee)
      && r.maxPriorityFeePerGas >= minPrio && r.maxPriorityFeePerGas >= priorityFee
      && (r.maxPriorityFeePerGas == minPrio || r.maxPriorityFeePerGas == priorityFee)
  {
    var baseFee := BaseFeeOrDefault(latestBaseFee);
    var maxPriorityFeePerGas := priorityFee;
    var maxFeePerGas := baseFee * 2 + maxPriorityFeePerGas;
    if prior.None? then FeeData(maxFeePerGas, maxPriorityFeePerGas)
    else
      var minFee := BumpByPercent(prior.value.maxFee, BUMP_PERCENT);
      var minPrio := BumpByPercent(prior.value.maxPrio, BUMP_PERCENT);
      FeeData(if maxFeePerGas < minFee then minFee else maxFeePerGas,
              if maxPriorityFeePerGas < minPrio then minPrio else maxPriorityFeePerGas)
  }

  /** A block without a base fee is priced as one whose base fee is 1 gwei. */
  lemma MissingBaseFeeIsOneGwei(priorityFee: int, prior: Option<PriorFees>)
    ensures ComputeFees(None, priorityFee, prior) == ComputeFees(Some(ONE_GWEI), priorityFee, prior)
  {
  }

  /** Without a prior and with non-negative inputs the fee cap covers the tip. */
  lemma BaselineCapCoversTip(latestBaseFee: Option<int>, priorityFee: int)
    requires latestBaseFee.Some? ==> latestBaseFee.value >= 0
    requires priorityFee >= 0
    ensures var r := ComputeFees(latestBaseFee, priorityFee, None);
      r.maxFeePerGas >= r.maxPriorityFeePerGas
  {
  }

  /** A replacement never prices below its prior, and strictly above it in each field whose
      prior is at least 9 wei, whatever the network reports. */
  lemma ReplacementOutbidsPrior(latestBaseFee: Option<int>, priorityFee: int, prior: PriorFees)
    requires prior.maxFee >= 0 && prior.maxPrio >= 0
    ensures var r := ComputeFees(latestBaseFee, priorityFee, Some(prior));
      && r.maxFeePerGas >= prior.maxFee && r.maxPriorityFeePerGas >= prior.maxPrio
      && (prior.maxFee >= 9 ==> r.maxFeePerGas > prior.maxFee)
      && (prior.maxPrio >= 9 ==> r.maxPriorityFeePerGas > prior.maxPrio)
  {
    BumpRaisesIff(prior.maxFee);
    BumpRaisesIff(prior.maxPrio);
    BumpNotBelow(prior.maxFee);
    BumpNotBelow(prior.maxPrio);
  }

  /** The two fields are chosen independently: the fee cap does not depend on the prior tip
      and the tip does not depend on the prior cap. */
  lemma FieldsIndependent(latestBaseFee: Option<int>, priorityFee: int, f1: int, p1: int, f2: int, p2: int)
    ensures ComputeFees(latestBaseFee, priorityFee, Some(PriorFees(f1, p1))).maxFeePerGas
         == ComputeFees(latestBaseFee, priorityFee, Some(PriorFees(f1, p2))).maxFeePerGas
    ensures ComputeFees(latestBaseFee, priorityFee, Some(PriorFees(f1, p1))).maxPriorityFeePerGas
         == ComputeFees(latestBaseFee, priorityFee, Some(PriorFees(f2, p1))).maxPriorityFeePerGas
  {
  }
}
