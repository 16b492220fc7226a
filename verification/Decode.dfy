/** A decoder for the binary encoding: it recovers what was written from any bytes that start with it. */
module Decode {
  import opened Machine
  import opened Chain
  import opened Bincode
  import Radix

  type Decoded<+T> = Option<(T, seq<byte>)>

  function LeValue(bytes: seq<byte>): nat {
    if bytes == [] then 0 else bytes[0] + 0x100 * LeValue(bytes[1..])
  }

  /** The little-endian number after a prefix byte. */
  function DecodeLe(bytes: seq<byte>, len: nat): Decoded<nat> {
    if |bytes| < len then None else Some((LeValue(bytes[..len]), bytes[len..]))
  }

  function DecodeVar(bytes: seq<byte>): Decoded<nat> {
    if bytes == [] then None
    else if bytes[0] < 251 then Some((bytes[0], bytes[1..]))
    else if bytes[0] == 251 then DecodeLe(bytes[1..], 2)
    else if bytes[0] == 252 then DecodeLe(bytes[1..], 4)
    else if bytes[0] == 253 then DecodeLe(bytes[1..], 8)
    else None
  }

  function DecodeU64(bytes: seq<byte>): Decoded<u64> {
    var (n, rest) :- DecodeVar(bytes);
    if n < TWO_TO_THE_64 then Some((n, rest)) else None
  }

  function DecodeFixed(bytes: seq<byte>, len: nat): (r: Decoded<seq<byte>>)
    ensures r.Some? ==> |r.value.0| == len
  {
    if |bytes| < len then None else Some((bytes[..len], bytes[len..]))
  }

  function DecodeOption(bytes: seq<byte>, len: nat): (r: Decoded<Option<seq<byte>>>)
    ensures r.Some? && r.value.0.Some? ==> |r.value.0.value| == len
  {
    var (tag, rest) :- DecodeVar(bytes);
    if tag == 0 then Some((None, rest))
    else if tag == 1 then
      var (data, after) :- DecodeFixed(rest, len);
      Some((Some(data), after))
    else None
  }

  function DecodeList<T>(bytes: seq<byte>, count: nat, dec: seq<byte> -> Decoded<T>): Decoded<seq<T>>
    decreases count
  {
    if count == 0 then Some(([], bytes))
    else
      var (x, rest) :- dec(bytes);
      var (xs, after) :- DecodeList(rest, count - 1, dec);
      Some(([x] + xs, after))
  }

  function DecodeSized<T>(bytes: seq<byte>, dec: seq<byte> -> Decoded<T>): Decoded<seq<T>> {
    var (count, rest) :- DecodeVar(bytes);
    DecodeList(rest, count, dec)
  }

  function DecodeInput(bytes: seq<byte>): Decoded<TransactionInput> {
    var (id, afterId) :- DecodeFixed(bytes, 32);
    var (index, afterIndex) :- DecodeU64(afterId);
    var (signature, afterSignature) :- DecodeOption(afterIndex, 64);
    var (owner, rest) :- DecodeFixed(afterSignature, 32);
    Some((TransactionInput(id, index, signature, owner), rest))
  }

  function DecodeOutput(bytes: seq<byte>): Decoded<TransactionOutput> {
    var (amount, afterAmount) :- DecodeU64(bytes);
    var (receiver, rest) :- DecodeFixed(afterAmount, 32);
    Some((TransactionOutput(amount, receiver), rest))
  }

  function DecodeTx(bytes: seq<byte>): Decoded<Transaction> {
    var (inputs, afterInputs) :- DecodeSized(bytes, DecodeInput);
    var (outputs, afterOutputs) :- DecodeSized(afterInputs, DecodeOutput);
    var (id, afterId) :- DecodeOption(afterOutputs, 32);
    var (nonce, afterNonce) :- DecodeU64(afterId);
    var (timestamp, rest) :- DecodeU64(afterNonce);
    Some((Transaction(inputs, outputs, id, nonce, timestamp), rest))
  }

  function DecodeFilter(bytes: seq<byte>): Decoded<AddressFilter> {
    var (count, afterCount) :- DecodeVar(bytes);
    var (bits, afterBits) :- DecodeFixed(afterCount, count);
    var (numBits, afterNumBits) :- DecodeU64(afterBits);
    var (numHashes, rest) :- DecodeU64(afterNumBits);
    if numHashes < TWO_TO_THE_32 then Some((AddressFilter(bits, numBits, numHashes), rest)) else None
  }

  function DecodeMeta(bytes: seq<byte>): Decoded<BlockMeta> {
    var (blockDifficulty, afterBlock) :- DecodeFixed(bytes, 32);
    var (txDifficulty, afterTx) :- DecodeFixed(afterBlock, 32);
    var (previous, afterPrevious) :- DecodeFixed(afterTx, 32);
    var (hash, afterHash) :- DecodeOption(afterPrevious, 32);
    var (root, afterRoot) :- DecodeFixed(afterHash, 32);
    var (filter, rest) :- DecodeFilter(afterRoot);
    Some((BlockMeta(blockDifficulty, txDifficulty, previous, hash, root, filter), rest))
  }

  function DecodeBlock(bytes: seq<byte>): Decoded<Block> {
    var (transactions, afterTxs) :- DecodeSized(bytes, DecodeTx);
    var (timestamp, afterTimestamp) :- DecodeU64(afterTxs);
    var (nonce, afterNonce) :- DecodeU64(afterTimestamp);
    var (meta, rest) :- DecodeMeta(afterNonce);
    Some((Block(transactions, timestamp, nonce, meta), rest))
  }

  // ---- Lengths that fit the 64 bits they are written in ----

  ghost predicate FitsTx(tx: Transaction) {
    |tx.inputs| < TWO_TO_THE_64 && |tx.outputs| < TWO_TO_THE_64
  }

  ghost predicate FitsBlock(block: Block) {
    && |block.transactions| < TWO_TO_THE_64
    && |block.meta.addressFilter.bits| < TWO_TO_THE_64
    && forall tx :: tx in block.transactions ==> FitsTx(tx)
  }

  // ---- Decoding what was written ----

  lemma {:induction false} LeValueOf(n: nat, len: nat)
    requires n < Radix.Pow(0x100, len)
    ensures LeValue(LittleEndian(n, len)) == n
  {
    if len != 0 {
      var bytes := LittleEndian(n, len);
      LeValueOf(n / 0x100, len - 1);
      assert bytes[1..] == LittleEndian(n / 0x100, len - 1) by {
        forall i | 0 <= i < len - 1
          ensures bytes[1..][i] == LittleEndian(n / 0x100, len - 1)[i]
        {
          ShiftStep(n, i);
        }
      }
    }
  }

  lemma Powers()
    ensures Radix.Pow(0x100, 2) == 0x1_0000
    ensures Radix.Pow(0x100, 4) == TWO_TO_THE_32
    ensures Radix.Pow(0x100, 8) == TWO_TO_THE_64
  {
    Radix.PowAdd(0x100, 2, 2);
    Radix.PowAdd(0x100, 4, 4);
  }

  lemma DecodeLeOf(prefix: byte, n: nat, len: nat, rest: seq<byte>)
    requires n < Radix.Pow(0x100, len)
    ensures var bytes := [prefix] + LittleEndian(n, len) + rest;
            bytes[0] == prefix && DecodeLe(bytes[1..], len) == Some((n, rest))
  {
    var bytes := [prefix] + LittleEndian(n, len) + rest;
    assert bytes[1..] == LittleEndian(n, len) + rest;
    assert bytes[1..][..len] == LittleEndian(n, len) && bytes[1..][len..] == rest;
    LeValueOf(n, len);
  }

  lemma DecodeVarOf(v: u64, rest: seq<byte>)
    ensures DecodeVar(VarUint(v) + rest) == Some((v, rest))
    ensures DecodeU64(VarUint(v) + rest) == Some((v, rest))
  {
    Powers();
    if v < 251 {
      assert ([v] + rest)[1..] == rest;
    } else if v <= 0xFFFF {
      DecodeLeOf(251, v, 2, rest);
    } else if v <= 0xFFFF_FFFF {
      DecodeLeOf(252, v, 4, rest);
    } else {
      DecodeLeOf(253, v, 8, rest);
    }
  }

  lemma {:induction false} LeBound(s: seq<byte>)
    ensures LeValue(s) < Radix.Pow(0x100, |s|)
  {
    if s != [] {
      LeBound(s[1..]);
    }
  }

  /** One byte below 251, and otherwise a prefix and two, four or eight bytes, as many as the number needs. */
  lemma VarUintLength(v: u64)
    ensures |VarUint(v)| == if v < 251 then 1 else if v < 0x1_0000 then 3 else if v < TWO_TO_THE_32 then 5 else 9
  {
  }

  /** No shorter bytes are decoded to the number. */
  lemma VarUintIsShortest(bytes: seq<byte>, v: u64)
    requires DecodeVar(bytes) == Some((v, []))
    ensures |VarUint(v)| <= |bytes|
  {
    Powers();
    VarUintLength(v);
    if bytes[0] == 251 {
      LeBound(bytes[1..][..2]);
    } else if bytes[0] == 252 {
      LeBound(bytes[1..][..4]);
    }
  }

  lemma DecodeSizeOf(n: nat, rest: seq<byte>)
    requires n < TWO_TO_THE_64
    ensures DecodeVar(Size(n) + rest) == Some((n, rest))
  {
    assert n % TWO_TO_THE_64 == n;
    DecodeVarOf(n, rest);
  }

  lemma DecodeFixedOf(data: seq<byte>, rest: seq<byte>)
    ensures DecodeFixed(data + rest, |data|) == Some((data, rest))
  {
  }

  lemma DecodeOptionOf(data: Option<seq<byte>>, len: nat, rest: seq<byte>)
    requires data.Some? ==> |data.value| == len
    ensures DecodeOption(OptionBytes(data) + rest, len) == Some((data, rest))
  {
    if data.None? {
      DecodeVarOf(0, rest);
    } else {
      Assoc(VarUint(1), data.value, rest);
      DecodeVarOf(1, data.value + rest);
      DecodeFixedOf(data.value, rest);
    }
  }

  lemma {:induction false} DecodeListOf<T>(xs: seq<T>, enc: T -> seq<byte>, dec: seq<byte> -> Decoded<T>,
      rest: seq<byte>)
    requires forall x, more :: x in xs ==> dec(enc(x) + more) == Some((x, more))
    ensures DecodeList(List(xs, enc) + rest, |xs|, dec) == Some((xs, rest))
  {
    if xs == [] {
      assert List(xs, enc) + rest == rest;
    } else {
      Assoc(enc(xs[0]), List(xs[1..], enc), rest);
      DecodeListOf(xs[1..], enc, dec, rest);
      assert [xs[0]] + xs[1..] == xs;
    }
  }

  lemma DecodeSizedOf<T>(xs: seq<T>, enc: T -> seq<byte>, dec: seq<byte> -> Decoded<T>, rest: seq<byte>)
    requires |xs| < TWO_TO_THE_64
    requires forall x, more :: x in xs ==> dec(enc(x) + more) == Some((x, more))
    ensures DecodeSized(Sized(xs, enc) + rest, dec) == Some((xs, rest))
  {
    Assoc(Size(|xs|), List(xs, enc), rest);
    DecodeSizeOf(|xs|, List(xs, enc) + rest);
    DecodeListOf(xs, enc, dec, rest);
  }

  lemma Regroup4(a: seq<byte>, b: seq<byte>, c: seq<byte>, d: seq<byte>, e: seq<byte>)
    ensures (a + (b + (c + d))) + e == a + (b + (c + (d + e)))
  {
  }

  lemma Regroup5(a: seq<byte>, b: seq<byte>, c: seq<byte>, d: seq<byte>, e: seq<byte>, f: seq<byte>)
    ensures (a + (b + (c + (d + e)))) + f == a + (b + (c + (d + (e + f))))
  {
  }

  lemma DecodeInputOf(input: TransactionInput, rest: seq<byte>)
    ensures DecodeInput(Input(input) + rest) == Some((input, rest))
  {
    var index, signature := VarUint(input.outputIndex), OptionBytes(input.signature);
    Regroup4(input.transactionId, index, signature, input.outputOwner, rest);
    DecodeFixedOf(input.transactionId, index + (signature + (input.outputOwner + rest)));
    DecodeVarOf(input.outputIndex, signature + (input.outputOwner + rest));
    DecodeOptionOf(input.signature, 64, input.outputOwner + rest);
    DecodeFixedOf(input.outputOwner, rest);
  }

  lemma DecodeOutputOf(output: TransactionOutput, rest: seq<byte>)
    ensures DecodeOutput(Output(output) + rest) == Some((output, rest))
  {
    Assoc(VarUint(output.amount), output.receiver, rest);
    DecodeVarOf(output.amount, output.receiver + rest);
    DecodeFixedOf(output.receiver, rest);
  }

  lemma DecodeInputsOf(inputs: seq<TransactionInput>, rest: seq<byte>)
    requires |inputs| < TWO_TO_THE_64
    ensures DecodeSized(Sized(inputs, Input) + rest, DecodeInput) == Some((inputs, rest))
  {
    forall x, more | x in inputs
      ensures DecodeInput(Input(x) + more) == Some((x, more))
    {
      DecodeInputOf(x, more);
    }
    DecodeSizedOf(inputs, Input, DecodeInput, rest);
  }

  lemma DecodeOutputsOf(outputs: seq<TransactionOutput>, rest: seq<byte>)
    requires |outputs| < TWO_TO_THE_64
    ensures DecodeSized(Sized(outputs, Output) + rest, DecodeOutput) == Some((outputs, rest))
  {
    forall x, more | x in outputs
      ensures DecodeOutput(Output(x) + more) == Some((x, more))
    {
      DecodeOutputOf(x, more);
    }
    DecodeSizedOf(outputs, Output, DecodeOutput, rest);
  }

  lemma DecodeTxOf(tx: Transaction, rest: seq<byte>)
    requires FitsTx(tx)
    ensures DecodeTx(Tx(tx) + rest) == Some((tx, rest))
  {
    var inputs, outputs := Sized(tx.inputs, Input), Sized(tx.outputs, Output);
    var id, nonce, timestamp := OptionBytes(tx.transactionId), VarUint(tx.nonce), VarUint(tx.timestamp);
    Regroup5(inputs, outputs, id, nonce, timestamp, rest);
    DecodeInputsOf(tx.inputs, outputs + (id + (nonce + (timestamp + rest))));
    DecodeOutputsOf(tx.outputs, id + (nonce + (timestamp + rest)));
    DecodeOptionOf(tx.transactionId, 32, nonce + (timestamp + rest));
    DecodeVarOf(tx.nonce, timestamp + rest);
    DecodeVarOf(tx.timestamp, rest);
  }

  lemma DecodeTxsOf(txs: seq<Transaction>, rest: seq<byte>)
    requires |txs| < TWO_TO_THE_64 && forall tx :: tx in txs ==> FitsTx(tx)
    ensures DecodeSized(Sized(txs, Tx) + rest, DecodeTx) == Some((txs, rest))
  {
    forall x, more | x in txs
      ensures DecodeTx(Tx(x) + more) == Some((x, more))
    {
      DecodeTxOf(x, more);
    }
    DecodeSizedOf(txs, Tx, DecodeTx, rest);
  }

  lemma DecodeFilterOf(filter: AddressFilter, rest: seq<byte>)
    requires |filter.bits| < TWO_TO_THE_64
    ensures DecodeFilter(Filter(filter) + rest) == Some((filter, rest))
  {
    var size, numBits, numHashes := Size(|filter.bits|), VarUint(filter.numBits), VarUint(filter.numHashes);
    Regroup4(size, filter.bits, numBits, numHashes, rest);
    DecodeSizeOf(|filter.bits|, filter.bits + (numBits + (numHashes + rest)));
    DecodeFixedOf(filter.bits, numBits + (numHashes + rest));
    DecodeVarOf(filter.numBits, numHashes + rest);
    DecodeVarOf(filter.numHashes, rest);
  }

  lemma DecodeMetaOf(meta: BlockMeta, rest: seq<byte>)
    requires |meta.addressFilter.bits| < TWO_TO_THE_64
    ensures DecodeMeta(Meta(meta) + rest) == Some((meta, rest))
  {
    var hash, filter := OptionBytes(meta.hash), Filter(meta.addressFilter);
    var tail := meta.merkleTreeRoot + (filter + rest);
    Regroup5(meta.blockPowDifficulty, meta.txPowDifficulty, meta.previousBlock, hash,
      meta.merkleTreeRoot + filter, rest);
    Assoc(meta.merkleTreeRoot, filter, rest);
    DecodeFixedOf(meta.blockPowDifficulty, meta.txPowDifficulty + (meta.previousBlock + (hash + tail)));
    DecodeFixedOf(meta.txPowDifficulty, meta.previousBlock + (hash + tail));
    DecodeFixedOf(meta.previousBlock, hash + tail);
    DecodeOptionOf(meta.hash, 32, tail);
    DecodeFixedOf(meta.merkleTreeRoot, filter + rest);
    DecodeFilterOf(meta.addressFilter, rest);
  }

  /** The encoding of a block is self-delimiting: whatever follows it, the decoder finds the block and the rest. */
  lemma DecodeBlockOf(block: Block, rest: seq<byte>)
    requires FitsBlock(block)
    ensures DecodeBlock(EncodedBlock(block) + rest) == Some((block, rest))
  {
    var txs, timestamp := Sized(block.transactions, Tx), VarUint(block.timestamp);
    var nonce, meta := VarUint(block.nonce), Meta(block.meta);
    Assoc(txs, timestamp, nonce + meta);
    Regroup4(txs, timestamp, nonce, meta, rest);
    DecodeTxsOf(block.transactions, timestamp + (nonce + (meta + rest)));
    DecodeVarOf(block.timestamp, nonce + (meta + rest));
    DecodeVarOf(block.nonce, meta + rest);
    DecodeMetaOf(block.meta, rest);
  }

  /** No encoding is a proper prefix of another. */
  lemma EncodingInjective(a: Block, b: Block, restA: seq<byte>, restB: seq<byte>)
    requires FitsBlock(a) && FitsBlock(b)
    requires EncodedBlock(a) + restA == EncodedBlock(b) + restB
    ensures a == b && restA == restB
  {
    DecodeBlockOf(a, restA);
    DecodeBlockOf(b, restB);
  }

  // ---- Little-endian numbers grow at the end ----

  lemma {:induction false} LeSnoc(s: seq<byte>, b: byte)
    ensures LeValue(s + [b]) == LeValue(s) + b * Radix.Pow(0x100, |s|)
  {
    if s != [] {
      LeSnoc(s[1..], b);
      assert (s + [b])[1..] == s[1..] + [b];
      assert 0x100 * (b * Radix.Pow(0x100, |s| - 1)) == b * (0x100 * Radix.Pow(0x100, |s| - 1));
    } else {
      assert (s + [b])[1..] == [];
    }
  }
}
