/** The configuration values the engine reads; environment parsing is not modelled. */
module Config {

  /** The options of the bot that the reconciliation engine consults. `priorityFee` is the
      configured tip already converted from gwei to wei. */
  datatype BotConfig = BotConfig(
    contractAddress: string,
    startBlock: int,
    confirmations: int,
    batchSize: int,
    stuckBlocks: int,
    priorityFee: int,
    maxReplacementsPerTx: int,
    recentSetSize: nat)

  /** The default contract address, already lower-cased as the configuration does. */
  const DEFAULT_CONTRACT_ADDRESS: string := "0xa7f42ff7433cb268dd7d59be62b00c30ded28d3d"

  /** The configuration with every optional value at its default; the priority tip
      "2.0" gwei is 2 * 10^9 wei. */
  function Defaults(startBlock: int): (c: BotConfig)
  {
    BotConfig(
      contractAddress := DEFAULT_CONTRACT_ADDRESS,
      startBlock := startBlock,
      confirmations := 3,
      batchSize := 2000,
      stuckBlocks := 12,
      priorityFee := 2_000_000_000,
      maxReplacementsPerTx := 6,
      recentSetSize := 5000)
  }
}
