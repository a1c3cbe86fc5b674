/** The rows the sync layer stores. Columns that are only copied are represented by the ones below. */
module Rows {
  import opened Prelude

  type Hash = string
  type Address = string

  datatype Block = Block(height: int, hash: Hash, parentHash: Hash, timestamp: int)

  datatype Transaction = Transaction(
    hash: Hash, blockHeight: int, txIndex: int, fromAddr: Address, toAddr: Option<Address>, value: nat)

  datatype Log = Log(
    blockHeight: int, txHash: Hash, logIndex: int, address: Address,
    topic0: Option<string>, topic1: Option<string>, topic2: Option<string>, topic3: Option<string>,
    data: Option<string>)

  datatype TokenStandard = Erc20 | Erc721

  datatype TokenTransfer = TokenTransfer(
    blockHeight: int, txHash: Hash, logIndex: int, contract: Address, standard: TokenStandard,
    fromAddr: Address, toAddr: Address, tokenId: Option<nat>, amount: nat)

  /** Everything one block contributes to the store. */
  datatype Bundle = Bundle(block: Block, txs: seq<Transaction>, logs: seq<Log>, transfers: seq<TokenTransfer>)

  // Primary and unique keys.
  function BlockKey(b: Block): int { b.height }

  function TxKey(t: Transaction): Hash { t.hash }

  function LogKey(l: Log): (int, int) { (l.blockHeight, l.logIndex) }

  function TransferKey(t: TokenTransfer): (Hash, int) { (t.txHash, t.logIndex) }

  // Sort keys of the batched writer.
  function BlockOrder(b: Block): (int, int) { (b.height, 0) }

  function TxOrder(t: Transaction): (int, int) { (t.blockHeight, t.txIndex) }

  function TransferOrder(t: TokenTransfer): (int, int) { (t.blockHeight, t.logIndex) }
}
