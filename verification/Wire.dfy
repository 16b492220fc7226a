/** Blocks as JSON, and JSON as blocks. */
module Wire {
  import opened Machine
  import opened Json
  import opened Chain
  import Base36
  import Doubles

  datatype WireError =
    | WrongType
    | NegativeNumber
    | TooLarge                  // a double of 2^64 or more, whose conversion is undefined
    | MissingField(key: string)
    | WrongLength
    | BadText(cause: Base36.Base36Error)

  // ---- To JSON. Object fields are listed in key order. ----

  function BytesText(data: seq<byte>): Json {
    Str(Base36.EncodeText(data))
  }

  function OptionText(data: Option<seq<byte>>): Json {
    match data
    case None => Null
    case Some(bytes) => BytesText(bytes)
  }

  function ListOf<T>(xs: seq<T>, f: T -> Json): (items: seq<Json>)
    ensures |items| == |xs| && forall i :: 0 <= i < |xs| ==> items[i] == f(xs[i])
  {
    seq(|xs|, i requires 0 <= i < |xs| => f(xs[i]))
  }

  function ByteJson(b: byte): Json {
    Uint64(b)
  }

  function InputJson(input: TransactionInput): Json {
    Obj([Field("output_index", Uint64(input.outputIndex)),
         Field("output_owner", BytesText(input.outputOwner)),
         Field("signature", OptionText(input.signature)),
         Field("transaction_id", BytesText(input.transactionId))])
  }

  function OutputJson(output: TransactionOutput): Json {
    Obj([Field("amount", Uint64(output.amount)),
         Field("receiver", BytesText(output.receiver))])
  }

  function TransactionJson(tx: Transaction): Json {
    Obj([Field("inputs", Arr(ListOf(tx.inputs, InputJson))),
         Field("nonce", Uint64(tx.nonce)),
         Field("outputs", Arr(ListOf(tx.outputs, OutputJson))),
         Field("timestamp", Uint64(tx.timestamp)),
         Field("transaction_id", OptionText(tx.transactionId))])
  }

  function ByteListJson(bytes: seq<byte>): Json {
    Arr(ListOf(bytes, ByteJson))
  }

  function FilterJson(filter: AddressFilter): Json {
    Obj([Field("bits", ByteListJson(filter.bits)),
         Field("num_bits", Uint64(filter.numBits)),
         Field("num_hashes", Uint64(filter.numHashes))])
  }

  function MetaJson(meta: BlockMeta): Json {
    Obj([Field("address_inclusion_filter", FilterJson(meta.addressFilter)),
         Field("block_pow_difficulty", ByteListJson(meta.blockPowDifficulty)),
         Field("hash", OptionText(meta.hash)),
         Field("merkle_tree_root", ByteListJson(meta.merkleTreeRoot)),
         Field("previous_block", BytesText(meta.previousBlock)),
         Field("tx_pow_difficulty", ByteListJson(meta.txPowDifficulty))])
  }

  function BlockJson(block: Block): Json {
    Obj([Field("meta", MetaJson(block.meta)),
         Field("nonce", Uint64(block.nonce)),
         Field("timestamp", Uint64(block.timestamp)),
         Field("transactions", Arr(ListOf(block.transactions, TransactionJson)))])
  }

  // ---- From JSON. The first failing access decides the error. ----

  type Read<+T> = Result<T, WireError>

  function AsObject(v: Json): Read<seq<Field>> {
    if v.Obj? then Ok(v.fields) else Err(WrongType)
  }

  function AsArray(v: Json): Read<seq<Json>> {
    if v.Arr? then Ok(v.items) else Err(WrongType)
  }

  function AsUint64(v: Json): Read<u64> {
    match v
    case Uint64(u) => Ok(u)
    case Int64(i) => if i < 0 then Err(NegativeNumber) else Ok(i)
    case Double(d) =>
      if Doubles.BelowZero(d) then Err(NegativeNumber)
      else if Doubles.Truncated(d).None? then Err(TooLarge)
      else Ok(Doubles.Truncated(d).value)
    case _ => Err(WrongType)
  }

  function Require(fields: seq<Field>, key: string): Read<Json> {
    match Find(fields, key)
    case Some(v) => Ok(v)
    case None => Err(MissingField(key))
  }

  function RequireUint64(fields: seq<Field>, key: string): Read<u64> {
    var v :- Require(fields, key);
    AsUint64(v)
  }

  function RequireArray(fields: seq<Field>, key: string): Read<seq<Json>> {
    var v :- Require(fields, key);
    AsArray(v)
  }

  function BytesOf(v: Json, len: nat): (r: Read<seq<byte>>)
    ensures r.Ok? ==> |r.value| == len
  {
    if !v.Str? then Err(WrongType)
    else match Base36.DecodeText(v.s, len)
      case Ok(bytes) => Ok(bytes)
      case Err(e) => Err(BadText(e))
  }

  function Bytes32Of(v: Json): Read<Bytes32> {
    var bytes :- BytesOf(v, 32);
    Ok(bytes)
  }

  function OptionBytes32Of(v: Json): Read<Option<Bytes32>> {
    if v == Null then Ok(None)
    else
      var bytes :- BytesOf(v, 32);
      Ok(Some(bytes))
  }

  function OptionBytes64Of(v: Json): Read<Option<Bytes64>> {
    if v == Null then Ok(None)
    else
      var bytes :- BytesOf(v, 64);
      Ok(Some(bytes))
  }

  /** The elements read one by one and appended to `out`; the first failure ends the reading. */
  function Collect<T>(items: seq<Json>, f: Json -> Read<T>, out: seq<T>): (r: Read<seq<T>>)
    ensures r.Ok? ==> |r.value| == |out| + |items|
  {
    if items == [] then Ok(out)
    else
      var x :- f(items[0]);
      Collect(items[1..], f, out + [x])
  }

  function ByteOf(v: Json): Read<byte> {
    var u :- AsUint64(v);
    Ok(u % 0x100)
  }

  function ByteListOf(v: Json): Read<seq<byte>> {
    var items :- AsArray(v);
    Collect(items, ByteOf, [])
  }

  function DifficultyOf(v: Json): (r: Read<Bytes32>) {
    var items :- AsArray(v);
    if |items| != 32 then Err(WrongLength)
    else
      var bytes :- Collect(items, ByteOf, []);
      Ok(bytes)
  }

  function InputOf(v: Json): Read<TransactionInput> {
    var obj :- AsObject(v);
    var idValue :- Require(obj, "transaction_id");
    var id :- Bytes32Of(idValue);
    var index :- RequireUint64(obj, "output_index");
    var signatureValue :- Require(obj, "signature");
    var signature :- OptionBytes64Of(signatureValue);
    var ownerValue :- Require(obj, "output_owner");
    var owner :- Bytes32Of(ownerValue);
    Ok(TransactionInput(id, index, signature, owner))
  }

  function OutputOf(v: Json): Read<TransactionOutput> {
    var obj :- AsObject(v);
    var amount :- RequireUint64(obj, "amount");
    var receiverValue :- Require(obj, "receiver");
    var receiver :- Bytes32Of(receiverValue);
    Ok(TransactionOutput(amount, receiver))
  }

  function TransactionOf(v: Json): Read<Transaction> {
    var obj :- AsObject(v);
    var inputItems :- RequireArray(obj, "inputs");
    var inputs :- Collect(inputItems, InputOf, []);
    var outputItems :- RequireArray(obj, "outputs");
    var outputs :- Collect(outputItems, OutputOf, []);
    var idValue :- Require(obj, "transaction_id");
    var id :- OptionBytes32Of(idValue);
    var nonce :- RequireUint64(obj, "nonce");
    var timestamp :- RequireUint64(obj, "timestamp");
    Ok(Transaction(inputs, outputs, id, nonce, timestamp))
  }

  function FilterOf(v: Json): Read<AddressFilter> {
    var obj :- AsObject(v);
    var numBits :- RequireUint64(obj, "num_bits");
    var numHashes :- RequireUint64(obj, "num_hashes");
    var bitsValue :- Require(obj, "bits");
    var bits :- ByteListOf(bitsValue);
    Ok(AddressFilter(bits, numBits, numHashes % TWO_TO_THE_32))
  }

  function MetaOf(v: Json): Read<BlockMeta> {
    var meta :- AsObject(v);
    var blockDifficultyValue :- Require(meta, "block_pow_difficulty");
    var blockDifficulty :- DifficultyOf(blockDifficultyValue);
    var txDifficultyValue :- Require(meta, "tx_pow_difficulty");
    var txDifficulty :- DifficultyOf(txDifficultyValue);
    var previousValue :- Require(meta, "previous_block");
    var previous :- Bytes32Of(previousValue);
    var hashValue :- Require(meta, "hash");
    var hash :- OptionBytes32Of(hashValue);
    var rootValue :- Require(meta, "merkle_tree_root");
    var root :- DifficultyOf(rootValue);
    var filterValue :- Require(meta, "address_inclusion_filter");
    var filter :- FilterOf(filterValue);
    Ok(BlockMeta(blockDifficulty, txDifficulty, previous, hash, root, filter))
  }

  function BlockOf(v: Json): Read<Block> {
    var obj :- AsObject(v);
    var timestamp :- RequireUint64(obj, "timestamp");
    var nonce :- RequireUint64(obj, "nonce");
    var items :- RequireArray(obj, "transactions");
    var transactions :- Collect(items, TransactionOf, []);
    var metaValue :- Require(obj, "meta");
    var meta :- MetaOf(metaValue);
    Ok(Block(transactions, timestamp, nonce, meta))
  }

  // ---- The loops that build the lists ----

  /** Appends the JSON of each element to a growing array. */
  method AppendAll<T>(xs: seq<T>, f: T -> Json) returns (items: seq<Json>)
    ensures items == ListOf(xs, f)
  {
    items := [];
    for i := 0 to |xs|
      invariant |items| == i && forall k :: 0 <= k < i ==> items[k] == f(xs[k])
    {
      items := items + [f(xs[i])];
    }
  }

  method TransactionToJson(tx: Transaction) returns (v: Json)
    ensures v == TransactionJson(tx)
  {
    var inputs := AppendAll(tx.inputs, InputJson);
    var outputs := AppendAll(tx.outputs, OutputJson);
    v := Obj([Field("inputs", Arr(inputs)),
              Field("nonce", Uint64(tx.nonce)),
              Field("outputs", Arr(outputs)),
              Field("timestamp", Uint64(tx.timestamp)),
              Field("transaction_id", OptionText(tx.transactionId))]);
  }

  method BlockToJson(block: Block) returns (v: Json)
    ensures v == BlockJson(block)
  {
    var txs := [];
    for i := 0 to |block.transactions|
      invariant |txs| == i && forall k :: 0 <= k < i ==> txs[k] == TransactionJson(block.transactions[k])
    {
      var tx := TransactionToJson(block.transactions[i]);
      txs := txs + [tx];
    }
    assert txs == ListOf(block.transactions, TransactionJson);
    v := Obj([Field("meta", MetaJson(block.meta)),
              Field("nonce", Uint64(block.nonce)),
              Field("timestamp", Uint64(block.timestamp)),
              Field("transactions", Arr(txs))]);
  }
}
