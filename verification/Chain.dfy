/** Blocks and transactions. */
module Chain {
  import opened Machine

  datatype TransactionInput = TransactionInput(
    transactionId: Bytes32, outputIndex: u64, signature: Option<Bytes64>, outputOwner: Bytes32)

  datatype TransactionOutput = TransactionOutput(amount: u64, receiver: Bytes32)

  datatype Transaction = Transaction(
    inputs: seq<TransactionInput>, outputs: seq<TransactionOutput>,
    transactionId: Option<Bytes32>, nonce: u64, timestamp: u64)

  datatype AddressFilter = AddressFilter(bits: seq<byte>, numBits: u64, numHashes: u32)

  datatype BlockMeta = BlockMeta(
    blockPowDifficulty: Bytes32, txPowDifficulty: Bytes32, previousBlock: Bytes32,
    hash: Option<Bytes32>, merkleTreeRoot: Bytes32, addressFilter: AddressFilter)

  datatype Block = Block(transactions: seq<Transaction>, timestamp: u64, nonce: u64, meta: BlockMeta)

  const SCIP1_MIGRATION: u64 := 1770375600
  const EXPIRATION_TIME_SECONDS: u64 := 350
}
