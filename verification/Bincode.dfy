/** The binary encoding that is hashed: its writer, its meaning, and a decoder that inverts it. */
module Bincode {
  import opened Machine
  import opened Chain

  // ---- What is written ----

  function LittleEndian(n: nat, len: nat): (bytes: seq<byte>)
    ensures |bytes| == len && forall i :: 0 <= i < len ==> bytes[i] == ShiftRight8(n, i) % 0x100
  {
    seq(len, i requires 0 <= i < len => ShiftRight8(n, i) % 0x100)
  }

  function VarUint(v: u64): (bytes: seq<byte>)
    ensures 1 <= |bytes| <= 9
  {
    if v < 251 then [v]
    else if v <= 0xFFFF then [251] + LittleEndian(v, 2)
    else if v <= 0xFFFF_FFFF then [252] + LittleEndian(v, 4)
    else [253] + LittleEndian(v, 8)
  }

  /** A length, as the 64-bit number it is cast to. */
  function Size(n: nat): seq<byte> {
    VarUint(n % TWO_TO_THE_64)
  }

  function OptionBytes(data: Option<seq<byte>>): seq<byte> {
    match data
    case None => VarUint(0)
    case Some(bytes) => VarUint(1) + bytes
  }

  function List<T>(xs: seq<T>, enc: T -> seq<byte>): seq<byte> {
    if xs == [] then [] else enc(xs[0]) + List(xs[1..], enc)
  }

  function Sized<T>(xs: seq<T>, enc: T -> seq<byte>): seq<byte> {
    Size(|xs|) + List(xs, enc)
  }

  function Input(input: TransactionInput): seq<byte> {
    input.transactionId + (VarUint(input.outputIndex) + (OptionBytes(input.signature) + input.outputOwner))
  }

  function Output(output: TransactionOutput): seq<byte> {
    VarUint(output.amount) + output.receiver
  }

  function Tx(tx: Transaction): seq<byte> {
    Sized(tx.inputs, Input) + (Sized(tx.outputs, Output)
    + (OptionBytes(tx.transactionId) + (VarUint(tx.nonce) + VarUint(tx.timestamp))))
  }

  function Filter(filter: AddressFilter): seq<byte> {
    Size(|filter.bits|) + (filter.bits + (VarUint(filter.numBits) + VarUint(filter.numHashes)))
  }

  function Meta(meta: BlockMeta): seq<byte> {
    meta.blockPowDifficulty + (meta.txPowDifficulty + (meta.previousBlock
    + (OptionBytes(meta.hash) + (meta.merkleTreeRoot + Filter(meta.addressFilter)))))
  }

  /** Everything before the nonce. */
  function Header(block: Block): seq<byte> {
    Sized(block.transactions, Tx) + VarUint(block.timestamp)
  }

  function EncodedBlock(block: Block): seq<byte> {
    Header(block) + (VarUint(block.nonce) + Meta(block.meta))
  }

  // ---- The writer ----

  lemma {:induction false} ListAppend<T>(xs: seq<T>, i: nat, enc: T -> seq<byte>)
    requires i < |xs|
    ensures List(xs[..i + 1], enc) == List(xs[..i], enc) + enc(xs[i])
  {
    var front := xs[..i + 1];
    if i == 0 {
      assert front == [xs[0]] && front[1..] == [] && xs[..0] == [];
      assert enc(xs[0]) + [] == enc(xs[0]) == [] + enc(xs[0]);
    } else {
      ListAppend(xs[1..], i - 1, enc);
      assert front[1..] == xs[1..][..i] && xs[..i][1..] == xs[1..][..i - 1];
      Assoc(enc(xs[0]), List(xs[1..][..i - 1], enc), enc(xs[i]));
    }
  }

  class Writer {
    var buffer: seq<byte>

    constructor ()
      ensures buffer == []
    {
      buffer := [];
    }

    method WriteU8(value: byte)
      modifies this
      ensures buffer == old(buffer) + [value]
    {
      buffer := buffer + [value];
    }

    method WriteFixedBytes(data: seq<byte>)
      modifies this
      ensures buffer == old(buffer) + data
    {
      buffer := buffer + data;
    }

    method WriteLittleEndian(value: nat, len: nat)
      modifies this
      ensures buffer == old(buffer) + LittleEndian(value, len)
    {
      for i := 0 to len
        invariant buffer == old(buffer) + LittleEndian(value, len)[..i]
      {
        buffer := buffer + [ShiftRight8(value, i) % 0x100];
      }
    }

    method WriteVaruint(value: u64)
      modifies this
      ensures buffer == old(buffer) + VarUint(value)
    {
      ghost var start := buffer;
      if value < 251 {
        WriteU8(value);
        return;
      }
      if value <= 0xFFFF {
        WriteU8(251);
        WriteLittleEndian(value, 2);
        Assoc(start, [251], LittleEndian(value, 2));
        return;
      }
      if value <= 0xFFFF_FFFF {
        WriteU8(252);
        WriteLittleEndian(value, 4);
        Assoc(start, [252], LittleEndian(value, 4));
        return;
      }
      WriteU8(253);
      WriteLittleEndian(value, 8);
      Assoc(start, [253], LittleEndian(value, 8));
    }

    method WriteUsize(value: nat)
      modifies this
      ensures buffer == old(buffer) + Size(value)
    {
      WriteVaruint(value % TWO_TO_THE_64);
    }

    method WriteOption(data: Option<seq<byte>>)
      modifies this
      ensures buffer == old(buffer) + OptionBytes(data)
    {
      if data.None? {
        WriteVaruint(0);
        return;
      }
      ghost var start := buffer;
      WriteVaruint(1);
      WriteFixedBytes(data.value);
      Assoc(start, VarUint(1), data.value);
    }

    method WriteInput(input: TransactionInput)
      modifies this
      ensures buffer == old(buffer) + Input(input)
    {
      ghost var start := buffer;
      WriteFixedBytes(input.transactionId);
      WriteVaruint(input.outputIndex);
      WriteOption(input.signature);
      WriteFixedBytes(input.outputOwner);
      Nest4(start, input.transactionId, VarUint(input.outputIndex), OptionBytes(input.signature), input.outputOwner);
    }

    method WriteInputs(inputs: seq<TransactionInput>)
      modifies this
      ensures buffer == old(buffer) + Sized(inputs, Input)
    {
      ghost var start := buffer;
      WriteUsize(|inputs|);
      for i := 0 to |inputs|
        invariant buffer == start + Size(|inputs|) + List(inputs[..i], Input)
      {
        WriteInput(inputs[i]);
        ListAppend(inputs, i, Input);
        Assoc(start + Size(|inputs|), List(inputs[..i], Input), Input(inputs[i]));
      }
      assert inputs[..|inputs|] == inputs;
      Assoc(start, Size(|inputs|), List(inputs, Input));
    }

    method WriteOutput(output: TransactionOutput)
      modifies this
      ensures buffer == old(buffer) + Output(output)
    {
      ghost var start := buffer;
      WriteVaruint(output.amount);
      WriteFixedBytes(output.receiver);
      Assoc(start, VarUint(output.amount), output.receiver);
    }

    method WriteOutputs(outputs: seq<TransactionOutput>)
      modifies this
      ensures buffer == old(buffer) + Sized(outputs, Output)
    {
      ghost var start := buffer;
      WriteUsize(|outputs|);
      for i := 0 to |outputs|
        invariant buffer == start + Size(|outputs|) + List(outputs[..i], Output)
      {
        WriteOutput(outputs[i]);
        ListAppend(outputs, i, Output);
        Assoc(start + Size(|outputs|), List(outputs[..i], Output), Output(outputs[i]));
      }
      assert outputs[..|outputs|] == outputs;
      Assoc(start, Size(|outputs|), List(outputs, Output));
    }

    method WriteTransaction(tx: Transaction)
      modifies this
      ensures buffer == old(buffer) + Tx(tx)
    {
      ghost var start := buffer;
      WriteInputs(tx.inputs);
      WriteOutputs(tx.outputs);
      WriteOption(tx.transactionId);
      WriteVaruint(tx.nonce);
      WriteVaruint(tx.timestamp);
      Nest5(start, Sized(tx.inputs, Input), Sized(tx.outputs, Output), OptionBytes(tx.transactionId),
            VarUint(tx.nonce), VarUint(tx.timestamp));
    }

    method WriteTransactions(txs: seq<Transaction>)
      modifies this
      ensures buffer == old(buffer) + Sized(txs, Tx)
    {
      ghost var start := buffer;
      WriteUsize(|txs|);
      for i := 0 to |txs|
        invariant buffer == start + Size(|txs|) + List(txs[..i], Tx)
      {
        WriteTransaction(txs[i]);
        ListAppend(txs, i, Tx);
        Assoc(start + Size(|txs|), List(txs[..i], Tx), Tx(txs[i]));
      }
      assert txs[..|txs|] == txs;
      Assoc(start, Size(|txs|), List(txs, Tx));
    }

    method WriteFilter(filter: AddressFilter)
      modifies this
      ensures buffer == old(buffer) + Filter(filter)
    {
      ghost var start := buffer;
      WriteUsize(|filter.bits|);
      ghost var sized := buffer;
      for i := 0 to |filter.bits|
        invariant buffer == sized + filter.bits[..i]
      {
        WriteU8(filter.bits[i]);
      }
      WriteVaruint(filter.numBits);
      WriteVaruint(filter.numHashes);
      Nest4(start, Size(|filter.bits|), filter.bits, VarUint(filter.numBits), VarUint(filter.numHashes));
    }

    method WriteMeta(meta: BlockMeta)
      modifies this
      ensures buffer == old(buffer) + Meta(meta)
    {
      ghost var start := buffer;
      WriteFixedBytes(meta.blockPowDifficulty);
      WriteFixedBytes(meta.txPowDifficulty);
      WriteFixedBytes(meta.previousBlock);
      WriteOption(meta.hash);
      WriteFixedBytes(meta.merkleTreeRoot);
      WriteFilter(meta.addressFilter);
      Nest5(start, meta.blockPowDifficulty, meta.txPowDifficulty, meta.previousBlock, OptionBytes(meta.hash),
            meta.merkleTreeRoot + Filter(meta.addressFilter));
      Assoc(start + meta.blockPowDifficulty + meta.txPowDifficulty + meta.previousBlock + OptionBytes(meta.hash),
            meta.merkleTreeRoot, Filter(meta.addressFilter));
    }

    method WriteBlock(block: Block) returns (nonceOffset: nat)
      modifies this
      ensures buffer == old(buffer) + EncodedBlock(block)
      ensures nonceOffset == |old(buffer)| + |Header(block)|
    {
      ghost var start := buffer;
      WriteTransactions(block.transactions);
      WriteVaruint(block.timestamp);
      Assoc(start, Sized(block.transactions, Tx), VarUint(block.timestamp));
      nonceOffset := |buffer|;
      WriteVaruint(block.nonce);
      WriteMeta(block.meta);
      Nest3(start, Header(block), VarUint(block.nonce), Meta(block.meta));
    }
  }

  lemma Nest3(s: seq<byte>, a: seq<byte>, b: seq<byte>, c: seq<byte>)
    ensures s + a + b + c == s + (a + (b + c))
  {
  }

  lemma Nest4(s: seq<byte>, a: seq<byte>, b: seq<byte>, c: seq<byte>, d: seq<byte>)
    ensures s + a + b + c + d == s + (a + (b + (c + d)))
  {
  }

  lemma Nest5(s: seq<byte>, a: seq<byte>, b: seq<byte>, c: seq<byte>, d: seq<byte>, e: seq<byte>)
    ensures s + a + b + c + d + e == s + (a + (b + (c + (d + e))))
  {
  }
}
