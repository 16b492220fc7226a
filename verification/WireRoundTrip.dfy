/** A block sent as JSON text is read back as the same block. */
module WireRoundTrip {
  import opened Machine
  import opened Json
  import opened JsonRoundTrip
  import opened JsonStable
  import opened Chain
  import opened Wire
  import Base36
  import Radix

  // ---- Looking up the fields that were written ----

  lemma SortedOfAdjacent(fields: seq<Field>)
    requires forall i :: 0 <= i < |fields| - 1 ==> Less(fields[i].key, fields[i + 1].key)
    ensures Sorted(fields)
  {
    if fields != [] {
      var rest := fields[1..];
      assert forall i :: 0 <= i < |rest| - 1 ==> Less(rest[i].key, rest[i + 1].key) by {
        forall i | 0 <= i < |rest| - 1
          ensures Less(rest[i].key, rest[i + 1].key)
        {
          assert rest[i] == fields[i + 1] && rest[i + 1] == fields[i + 2];
        }
      }
      SortedOfAdjacent(rest);
      SortedCons(fields[0], rest);
      assert fields == [fields[0]] + rest;
    }
  }

  lemma {:induction false} FindAt(fields: seq<Field>, i: nat)
    requires Sorted(fields) && i < |fields|
    ensures Find(fields, fields[i].key) == Some(fields[i].value)
  {
    if i > 0 {
      assert Less(fields[0].key, fields[i].key);
      LessIrreflexive(fields[0].key);
      FindAt(fields[1..], i - 1);
    }
  }

  lemma FindKey(fields: seq<Field>, i: nat, key: string)
    requires Sorted(fields) && i < |fields| && fields[i].key == key
    ensures Require(fields, key) == Ok(fields[i].value)
  {
    FindAt(fields, i);
  }

  /** Two keys that first differ at position `k`. */
  lemma LessFrom(a: string, b: string, k: nat)
    requires k < |a| && k < |b| && a[..k] == b[..k] && a[k] < b[k]
    ensures Less(a, b)
  {
    if k > 0 {
      assert a[0] == a[..k][0] == b[..k][0] == b[0];
      assert a[1..][..k - 1] == a[..k][1..] == b[..k][1..] == b[1..][..k - 1];
      LessFrom(a[1..], b[1..], k - 1);
    }
  }

  ghost predicate CleanKeys(fields: seq<Field>) {
    forall i :: 0 <= i < |fields| ==> Clean(fields[i].key)
  }

  /** A key and the one after it. */
  ghost predicate NextKey(a: string, b: string) {
    Less(a, b) && Clean(a) && Clean(b)
  }

  lemma SharedPrefix()
    ensures "output_index"[..7] == "output_owner"[..7] == "output_"
    ensures "num_bits"[..4] == "num_hashes"[..4] == "num_"
  {
  }

  lemma OutputKeysOrdered()
    ensures Less("output_index", "output_owner")
  {
    SharedPrefix();
    LessFrom("output_index", "output_owner", 7);
  }

  lemma OutputKeysClean()
    ensures Clean("output_index") && Clean("output_owner")
  {
  }

  lemma OutputIndexThenOutputOwner()
    ensures NextKey("output_index", "output_owner")
  {
    OutputKeysOrdered();
    OutputKeysClean();
  }

  lemma OutputOwnerThenSignature()
    ensures NextKey("output_owner", "signature")
  {
    LessFrom("output_owner", "signature", 0);
  }

  lemma SignatureThenTransactionId()
    ensures NextKey("signature", "transaction_id")
  {
    LessFrom("signature", "transaction_id", 0);
  }

  lemma AmountThenReceiver()
    ensures NextKey("amount", "receiver")
  {
    LessFrom("amount", "receiver", 0);
  }

  lemma InputsThenNonce()
    ensures NextKey("inputs", "nonce")
  {
    LessFrom("inputs", "nonce", 0);
  }

  lemma NonceThenOutputs()
    ensures NextKey("nonce", "outputs")
  {
    LessFrom("nonce", "outputs", 0);
  }

  lemma OutputsThenTimestamp()
    ensures NextKey("outputs", "timestamp")
  {
    LessFrom("outputs", "timestamp", 0);
  }

  lemma TimestampThenTransactionId()
    ensures NextKey("timestamp", "transaction_id")
  {
    LessFrom("timestamp", "transaction_id", 1);
  }

  lemma BitsThenNumBits()
    ensures NextKey("bits", "num_bits")
  {
    LessFrom("bits", "num_bits", 0);
  }

  lemma NumBitsThenNumHashes()
    ensures NextKey("num_bits", "num_hashes")
  {
    assert Less("num_bits", "num_hashes") by {
      SharedPrefix();
      LessFrom("num_bits", "num_hashes", 4);
    }
  }

  lemma AddressInclusionFilterThenBlockPowDifficulty()
    ensures NextKey("address_inclusion_filter", "block_pow_difficulty")
  {
    LessFrom("address_inclusion_filter", "block_pow_difficulty", 0);
  }

  lemma BlockPowDifficultyThenHash()
    ensures NextKey("block_pow_difficulty", "hash")
  {
    LessFrom("block_pow_difficulty", "hash", 0);
  }

  lemma HashThenMerkleTreeRoot()
    ensures NextKey("hash", "merkle_tree_root")
  {
    LessFrom("hash", "merkle_tree_root", 0);
  }

  lemma MerkleTreeRootThenPreviousBlock()
    ensures NextKey("merkle_tree_root", "previous_block")
  {
    LessFrom("merkle_tree_root", "previous_block", 0);
  }

  lemma PreviousBlockThenTxPowDifficulty()
    ensures NextKey("previous_block", "tx_pow_difficulty")
  {
    LessFrom("previous_block", "tx_pow_difficulty", 0);
  }

  lemma MetaThenNonce()
    ensures NextKey("meta", "nonce")
  {
    LessFrom("meta", "nonce", 0);
  }

  lemma NonceThenTimestamp()
    ensures NextKey("nonce", "timestamp")
  {
    LessFrom("nonce", "timestamp", 0);
  }

  lemma TimestampThenTransactions()
    ensures NextKey("timestamp", "transactions")
  {
    LessFrom("timestamp", "transactions", 1);
  }

  lemma KeysInOrder(fields: seq<Field>)
    requires forall i :: 0 <= i < |fields| - 1 ==> NextKey(fields[i].key, fields[i + 1].key)
    requires |fields| != 1
    ensures Sorted(fields) && CleanKeys(fields)
  {
    SortedOfAdjacent(fields);
    forall i | 0 <= i < |fields|
      ensures Clean(fields[i].key)
    {
      if i == 0 {
        assert NextKey(fields[0].key, fields[1].key);
      } else {
        assert NextKey(fields[i - 1].key, fields[i].key);
      }
    }
  }

  lemma InputKeys(fields: seq<Field>)
    requires |fields| == 4
    requires fields[0].key == "output_index"
    requires fields[1].key == "output_owner"
    requires fields[2].key == "signature"
    requires fields[3].key == "transaction_id"
    ensures Sorted(fields) && CleanKeys(fields)
  {
    OutputIndexThenOutputOwner();
    OutputOwnerThenSignature();
    SignatureThenTransactionId();
    KeysInOrder(fields);
  }

  lemma OutputKeys(fields: seq<Field>)
    requires |fields| == 2
    requires fields[0].key == "amount"
    requires fields[1].key == "receiver"
    ensures Sorted(fields) && CleanKeys(fields)
  {
    AmountThenReceiver();
    KeysInOrder(fields);
  }

  lemma TransactionKeys(fields: seq<Field>)
    requires |fields| == 5
    requires fields[0].key == "inputs"
    requires fields[1].key == "nonce"
    requires fields[2].key == "outputs"
    requires fields[3].key == "timestamp"
    requires fields[4].key == "transaction_id"
    ensures Sorted(fields) && CleanKeys(fields)
  {
    InputsThenNonce();
    NonceThenOutputs();
    OutputsThenTimestamp();
    TimestampThenTransactionId();
    KeysInOrder(fields);
  }

  lemma FilterKeys(fields: seq<Field>)
    requires |fields| == 3
    requires fields[0].key == "bits"
    requires fields[1].key == "num_bits"
    requires fields[2].key == "num_hashes"
    ensures Sorted(fields) && CleanKeys(fields)
  {
    BitsThenNumBits();
    NumBitsThenNumHashes();
    KeysInOrder(fields);
  }

  lemma MetaKeys(fields: seq<Field>)
    requires |fields| == 6
    requires fields[0].key == "address_inclusion_filter"
    requires fields[1].key == "block_pow_difficulty"
    requires fields[2].key == "hash"
    requires fields[3].key == "merkle_tree_root"
    requires fields[4].key == "previous_block"
    requires fields[5].key == "tx_pow_difficulty"
    ensures Sorted(fields) && CleanKeys(fields)
  {
    AddressInclusionFilterThenBlockPowDifficulty();
    BlockPowDifficultyThenHash();
    HashThenMerkleTreeRoot();
    MerkleTreeRootThenPreviousBlock();
    PreviousBlockThenTxPowDifficulty();
    KeysInOrder(fields);
  }

  lemma BlockKeys(fields: seq<Field>)
    requires |fields| == 4
    requires fields[0].key == "meta"
    requires fields[1].key == "nonce"
    requires fields[2].key == "timestamp"
    requires fields[3].key == "transactions"
    ensures Sorted(fields) && CleanKeys(fields)
  {
    MetaThenNonce();
    NonceThenTimestamp();
    TimestampThenTransactions();
    KeysInOrder(fields);
  }

  // ---- From JSON after to JSON ----

  lemma {:induction false} CollectListOf<T>(xs: seq<T>, to: T -> Json, from: Json -> Read<T>, out: seq<T>)
    requires forall x :: x in xs ==> from(to(x)) == Ok(x)
    ensures Collect(ListOf(xs, to), from, out) == Ok(out + xs)
  {
    if xs == [] {
      assert out + xs == out;
    } else {
      assert ListOf(xs, to)[1..] == ListOf(xs[1..], to);
      CollectListOf(xs[1..], to, from, out + [xs[0]]);
      assert (out + [xs[0]]) + xs[1..] == out + xs;
    }
  }

  lemma BytesTextRead(data: seq<byte>)
    ensures BytesOf(BytesText(data), |data|) == Ok(data)
  {
    Base36.DecodeAfterEncode(data);
  }

  lemma Option32Read(data: Option<Bytes32>)
    ensures OptionBytes32Of(OptionText(data)) == Ok(data)
  {
    if data.Some? {
      BytesTextRead(data.value);
    }
  }

  lemma Option64Read(data: Option<Bytes64>)
    ensures OptionBytes64Of(OptionText(data)) == Ok(data)
  {
    if data.Some? {
      BytesTextRead(data.value);
    }
  }

  lemma ByteRead(b: byte)
    ensures ByteOf(ByteJson(b)) == Ok(b)
  {
  }

  lemma BytesRead(bytes: seq<byte>)
    ensures Collect(ListOf(bytes, ByteJson), ByteOf, []) == Ok(bytes)
  {
    forall b | b in bytes
      ensures ByteOf(ByteJson(b)) == Ok(b)
    {
      ByteRead(b);
    }
    CollectListOf(bytes, ByteJson, ByteOf, []);
    assert [] + bytes == bytes;
  }

  lemma ByteListRead(bytes: seq<byte>)
    ensures ByteListOf(ByteListJson(bytes)) == Ok(bytes)
    ensures |bytes| == 32 ==> DifficultyOf(ByteListJson(bytes)) == Ok(bytes)
  {
    BytesRead(bytes);
  }

  lemma Bytes32Read(data: Bytes32)
    ensures Bytes32Of(BytesText(data)) == Ok(data)
  {
    BytesTextRead(data);
  }

  lemma InputOfFields(fields: seq<Field>, input: TransactionInput)
    requires Require(fields, "transaction_id") == Ok(BytesText(input.transactionId))
    requires Require(fields, "output_index") == Ok(Uint64(input.outputIndex))
    requires Require(fields, "signature") == Ok(OptionText(input.signature))
    requires Require(fields, "output_owner") == Ok(BytesText(input.outputOwner))
    ensures InputOf(Obj(fields)) == Ok(input)
  {
    Bytes32Read(input.transactionId);
    Option64Read(input.signature);
    Bytes32Read(input.outputOwner);
  }

  lemma InputRead(input: TransactionInput)
    ensures InputOf(InputJson(input)) == Ok(input)
  {
    var fields := InputJson(input).fields;
    InputKeys(fields);
    FindKey(fields, 0, "output_index");
    FindKey(fields, 1, "output_owner");
    FindKey(fields, 2, "signature");
    FindKey(fields, 3, "transaction_id");
    InputOfFields(fields, input);
  }

  lemma OutputRead(output: TransactionOutput)
    ensures OutputOf(OutputJson(output)) == Ok(output)
  {
    var fields := OutputJson(output).fields;
    OutputKeys(fields);
    FindKey(fields, 0, "amount");
    FindKey(fields, 1, "receiver");
    BytesTextRead(output.receiver);
  }

  lemma InputsRead(inputs: seq<TransactionInput>)
    ensures Collect(ListOf(inputs, InputJson), InputOf, []) == Ok(inputs)
  {
    forall input | input in inputs
      ensures InputOf(InputJson(input)) == Ok(input)
    {
      InputRead(input);
    }
    CollectListOf(inputs, InputJson, InputOf, []);
    assert [] + inputs == inputs;
  }

  lemma OutputsRead(outputs: seq<TransactionOutput>)
    ensures Collect(ListOf(outputs, OutputJson), OutputOf, []) == Ok(outputs)
  {
    forall output | output in outputs
      ensures OutputOf(OutputJson(output)) == Ok(output)
    {
      OutputRead(output);
    }
    CollectListOf(outputs, OutputJson, OutputOf, []);
    assert [] + outputs == outputs;
  }

  lemma TransactionOfFields(fields: seq<Field>, tx: Transaction)
    requires Require(fields, "inputs") == Ok(Arr(ListOf(tx.inputs, InputJson)))
    requires Require(fields, "outputs") == Ok(Arr(ListOf(tx.outputs, OutputJson)))
    requires Require(fields, "transaction_id") == Ok(OptionText(tx.transactionId))
    requires Require(fields, "nonce") == Ok(Uint64(tx.nonce))
    requires Require(fields, "timestamp") == Ok(Uint64(tx.timestamp))
    ensures TransactionOf(Obj(fields)) == Ok(tx)
  {
    assert Collect(ListOf(tx.inputs, InputJson), InputOf, []) == Ok(tx.inputs) by {
      InputsRead(tx.inputs);
    }
    assert Collect(ListOf(tx.outputs, OutputJson), OutputOf, []) == Ok(tx.outputs) by {
      OutputsRead(tx.outputs);
    }
    assert OptionBytes32Of(OptionText(tx.transactionId)) == Ok(tx.transactionId) by {
      Option32Read(tx.transactionId);
    }
    ArrayAt(fields, "inputs", ListOf(tx.inputs, InputJson));
    ArrayAt(fields, "outputs", ListOf(tx.outputs, OutputJson));
  }

  lemma ArrayAt(fields: seq<Field>, key: string, items: seq<Json>)
    requires Require(fields, key) == Ok(Arr(items))
    ensures RequireArray(fields, key) == Ok(items)
  {
  }

  lemma TransactionRead(tx: Transaction)
    ensures TransactionOf(TransactionJson(tx)) == Ok(tx)
  {
    var fields := TransactionJson(tx).fields;
    TransactionKeys(fields);
    FindKey(fields, 0, "inputs");
    FindKey(fields, 1, "nonce");
    FindKey(fields, 2, "outputs");
    FindKey(fields, 3, "timestamp");
    FindKey(fields, 4, "transaction_id");
    TransactionOfFields(fields, tx);
  }

  lemma TransactionsRead(txs: seq<Transaction>)
    ensures Collect(ListOf(txs, TransactionJson), TransactionOf, []) == Ok(txs)
  {
    forall tx | tx in txs
      ensures TransactionOf(TransactionJson(tx)) == Ok(tx)
    {
      TransactionRead(tx);
    }
    CollectListOf(txs, TransactionJson, TransactionOf, []);
    assert [] + txs == txs;
  }

  lemma FilterOfFields(fields: seq<Field>, filter: AddressFilter)
    requires Require(fields, "num_bits") == Ok(Uint64(filter.numBits))
    requires Require(fields, "num_hashes") == Ok(Uint64(filter.numHashes))
    requires Require(fields, "bits") == Ok(ByteListJson(filter.bits))
    ensures FilterOf(Obj(fields)) == Ok(filter)
  {
    ByteListRead(filter.bits);
  }

  lemma FilterRead(filter: AddressFilter)
    ensures FilterOf(FilterJson(filter)) == Ok(filter)
  {
    var fields := FilterJson(filter).fields;
    FilterKeys(fields);
    FindKey(fields, 0, "bits");
    FindKey(fields, 1, "num_bits");
    FindKey(fields, 2, "num_hashes");
    FilterOfFields(fields, filter);
  }

  lemma MetaRead(meta: BlockMeta)
    ensures MetaOf(MetaJson(meta)) == Ok(meta)
  {
    var fields := MetaJson(meta).fields;
    MetaKeys(fields);
    FindKey(fields, 0, "address_inclusion_filter");
    FindKey(fields, 1, "block_pow_difficulty");
    FindKey(fields, 2, "hash");
    FindKey(fields, 3, "merkle_tree_root");
    FindKey(fields, 4, "previous_block");
    FindKey(fields, 5, "tx_pow_difficulty");
    FilterRead(meta.addressFilter);
    ByteListRead(meta.blockPowDifficulty);
    ByteListRead(meta.merkleTreeRoot);
    ByteListRead(meta.txPowDifficulty);
    BytesTextRead(meta.previousBlock);
    Option32Read(meta.hash);
  }

  lemma BlockRead(block: Block)
    ensures BlockOf(BlockJson(block)) == Ok(block)
  {
    var fields := BlockJson(block).fields;
    BlockKeys(fields);
    FindKey(fields, 0, "meta");
    FindKey(fields, 1, "nonce");
    FindKey(fields, 2, "timestamp");
    FindKey(fields, 3, "transactions");
    TransactionsRead(block.transactions);
    MetaRead(block.meta);
  }

  // ---- Everything that is written survives the text ----

  ghost predicate Plain(v: Json) {
    WellFormed(v) && Stable(v)
  }

  lemma DigitsClean(text: string)
    requires Base36.ValidText(text)
    ensures Clean(text)
  {
    forall i | 0 <= i < |text|
      ensures !BadControl(text[i])
    {
      assert 0 <= Base36.DigitOf(text[i]);
    }
  }

  lemma TextPlain(data: seq<byte>)
    ensures Plain(BytesText(data))
  {
    Base36.TextIsValid(Radix.Value(0x100, data));
    DigitsClean(Base36.EncodeText(data));
  }

  lemma OptionPlain(data: Option<seq<byte>>)
    ensures Plain(OptionText(data))
  {
    if data.Some? {
      TextPlain(data.value);
    }
  }

  lemma ArrayPlain<T>(xs: seq<T>, f: T -> Json)
    requires forall x :: x in xs ==> Plain(f(x))
    ensures Plain(Arr(ListOf(xs, f)))
  {
    var items := ListOf(xs, f);
    forall item | item in items
      ensures Plain(item)
    {
      var i :| 0 <= i < |items| && items[i] == item;
      assert xs[i] in xs;
    }
  }

  ghost predicate PlainValues(fields: seq<Field>) {
    forall i :: 0 <= i < |fields| ==> Plain(fields[i].value)
  }

  lemma ObjectPlain(fields: seq<Field>)
    requires Sorted(fields) && CleanKeys(fields) && PlainValues(fields)
    ensures Plain(Obj(fields))
  {
    forall field | field in fields
      ensures Clean(field.key) && Plain(field.value)
    {
      var i :| 0 <= i < |fields| && fields[i] == field;
    }
  }

  lemma InputPlainValues(input: TransactionInput)
    ensures PlainValues(InputJson(input).fields)
  {
    TextPlain(input.transactionId);
    TextPlain(input.outputOwner);
    OptionPlain(input.signature);
  }

  lemma InputPlain(input: TransactionInput)
    ensures Plain(InputJson(input))
  {
    InputKeys(InputJson(input).fields);
    InputPlainValues(input);
    ObjectPlain(InputJson(input).fields);
  }

  lemma OutputPlain(output: TransactionOutput)
    ensures Plain(OutputJson(output))
  {
    OutputKeys(OutputJson(output).fields);
    TextPlain(output.receiver);
    ObjectPlain(OutputJson(output).fields);
  }

  lemma InputsPlain(inputs: seq<TransactionInput>)
    ensures Plain(Arr(ListOf(inputs, InputJson)))
  {
    forall input | input in inputs
      ensures Plain(InputJson(input))
    {
      InputPlain(input);
    }
    ArrayPlain(inputs, InputJson);
  }

  lemma OutputsPlain(outputs: seq<TransactionOutput>)
    ensures Plain(Arr(ListOf(outputs, OutputJson)))
  {
    forall output | output in outputs
      ensures Plain(OutputJson(output))
    {
      OutputPlain(output);
    }
    ArrayPlain(outputs, OutputJson);
  }

  lemma TransactionPlainValues(tx: Transaction)
    ensures PlainValues(TransactionJson(tx).fields)
  {
    InputsPlain(tx.inputs);
    OutputsPlain(tx.outputs);
    OptionPlain(tx.transactionId);
  }

  lemma TransactionPlain(tx: Transaction)
    ensures Plain(TransactionJson(tx))
  {
    TransactionKeys(TransactionJson(tx).fields);
    TransactionPlainValues(tx);
    ObjectPlain(TransactionJson(tx).fields);
  }

  lemma ByteListPlain(bytes: seq<byte>)
    ensures Plain(ByteListJson(bytes))
  {
    ArrayPlain(bytes, ByteJson);
  }

  lemma FilterPlain(filter: AddressFilter)
    ensures Plain(FilterJson(filter))
  {
    FilterKeys(FilterJson(filter).fields);
    ByteListPlain(filter.bits);
    ObjectPlain(FilterJson(filter).fields);
  }

  lemma MetaPlain(meta: BlockMeta)
    ensures Plain(MetaJson(meta))
  {
    MetaKeys(MetaJson(meta).fields);
    MetaPlainValues(meta);
    ObjectPlain(MetaJson(meta).fields);
  }

  lemma MetaValues(meta: BlockMeta)
    ensures var fields := MetaJson(meta).fields;
            && |fields| == 6 && fields[0].value == FilterJson(meta.addressFilter)
            && fields[1].value == ByteListJson(meta.blockPowDifficulty) && fields[2].value == OptionText(meta.hash)
            && fields[3].value == ByteListJson(meta.merkleTreeRoot) && fields[4].value == BytesText(meta.previousBlock)
            && fields[5].value == ByteListJson(meta.txPowDifficulty)
  {
  }

  lemma MetaPlainValues(meta: BlockMeta)
    ensures PlainValues(MetaJson(meta).fields)
  {
    MetaValues(meta);
    FilterPlain(meta.addressFilter);
    ByteListPlain(meta.blockPowDifficulty);
    OptionPlain(meta.hash);
    ByteListPlain(meta.merkleTreeRoot);
    TextPlain(meta.previousBlock);
    ByteListPlain(meta.txPowDifficulty);
    SixPlain(MetaJson(meta).fields);
  }

  lemma SixPlain(fields: seq<Field>)
    requires |fields| == 6 && Plain(fields[0].value) && Plain(fields[1].value) && Plain(fields[2].value)
    requires Plain(fields[3].value) && Plain(fields[4].value) && Plain(fields[5].value)
    ensures PlainValues(fields)
  {
  }

  lemma TransactionsPlain(txs: seq<Transaction>)
    ensures Plain(Arr(ListOf(txs, TransactionJson)))
  {
    forall tx | tx in txs
      ensures Plain(TransactionJson(tx))
    {
      TransactionPlain(tx);
    }
    ArrayPlain(txs, TransactionJson);
  }

  lemma BlockPlainValues(block: Block)
    ensures PlainValues(BlockJson(block).fields)
  {
    TransactionsPlain(block.transactions);
    MetaPlain(block.meta);
    FourPlain(BlockJson(block).fields, MetaJson(block.meta), Arr(ListOf(block.transactions, TransactionJson)),
      block.nonce, block.timestamp);
  }

  lemma FourPlain(fields: seq<Field>, meta: Json, txs: Json, nonce: u64, timestamp: u64)
    requires |fields| == 4 && fields[0].value == meta && fields[1].value == Uint64(nonce)
    requires fields[2].value == Uint64(timestamp) && fields[3].value == txs
    requires Plain(meta) && Plain(txs)
    ensures PlainValues(fields)
  {
  }

  lemma BlockPlain(block: Block)
    ensures Plain(BlockJson(block))
  {
    BlockKeys(BlockJson(block).fields);
    BlockPlainValues(block);
    ObjectPlain(BlockJson(block).fields);
  }

  /** The whole trip: block, JSON value, text in any style, JSON value, block. */
  lemma BlockWireRoundTrip(block: Block, style: Style)
    ensures var parsed := ParseJson(ToJson(BlockJson(block), style));
            parsed.Ok? && BlockOf(parsed.value) == Ok(block)
  {
    BlockPlain(block);
    RoundTripExactly(BlockJson(block), style);
    BlockRead(block);
  }

  /** Different blocks have different texts. */
  lemma BlockTextInjective(a: Block, b: Block, style: Style)
    requires ToJson(BlockJson(a), style) == ToJson(BlockJson(b), style)
    ensures a == b
  {
    BlockWireRoundTrip(a, style);
    BlockWireRoundTrip(b, style);
  }
}
