/** Classification of the outstanding transaction from its receipt and the chain height
    (src/pending.ts). */
module Pending {
  import opened Common

  /** A transaction receipt; `status` is 1 (success), 0 (revert) or absent. */
  datatype Receipt = Receipt(status: Option<int>, blockNumber: int)

  /** The three outcomes of a status check; only a confirmation carries a receipt. */
  datatype TxCheck = Confirmed(receipt: Receipt) | Stuck | Pending

  /** `checkTxStatus` with the receipt lookup and the current block number as inputs. */
  function CheckTxStatus(receipt: Option<Receipt>, currentBlock: int, sentAtBlock: int, stuckBlocks: int)
    : (r: TxCheck)
    ensures r.Confirmed? <==> receipt.Some? && receipt.value.status.Some?
    ensures r.Confirmed? ==> r.receipt == receipt.value
    ensures r.Stuck? <==> !(receipt.Some? && receipt.value.status.Some?)
                          && currentBlock - sentAtBlock >= stuckBlocks
    ensures r.Pending? <==> !(receipt.Some? && receipt.value.status.Some?)
                            && currentBlock - sentAtBlock < stuckBlocks
  {
    if receipt.Some? && receipt.value.status.Some? then Confirmed(receipt.value)
    else
      var blocksWaiting := currentBlock - sentAtBlock;
      if blocksWaiting >= stuckBlocks then Stuck else Pending
  }

  /** A receipt with a status confirms however long the transaction has waited, whether it
      succeeded or reverted. */
  lemma ReceiptConfirms(status: int, blockNumber: int, currentBlock: int, sentAtBlock: int, stuckBlocks: int)
    ensures CheckTxStatus(Some(Receipt(Some(status), blockNumber)), currentBlock, sentAtBlock, stuckBlocks)
         == Confirmed(Receipt(Some(status), blockNumber))
  {
  }

  /** Without a usable receipt, once stuck always stuck as the chain grows. */
  lemma StuckPersists(receipt: Option<Receipt>, c1: int, c2: int, sentAtBlock: int, stuckBlocks: int)
    requires c1 <= c2
    requires CheckTxStatus(receipt, c1, sentAtBlock, stuckBlocks).Stuck?
    ensures CheckTxStatus(receipt, c2, sentAtBlock, stuckBlocks).Stuck?
  {
  }

  /** The threshold is inclusive: sent at 100 with a threshold of 12, block 111 is still
      pending and block 112 is stuck. */
  lemma StuckBoundary()
    ensures CheckTxStatus(None, 111, 100, 12) == Pending
    ensures CheckTxStatus(None, 112, 100, 12) == Stuck
  {
  }
}
