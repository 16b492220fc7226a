/** The bytes that are hashed for a block or a transaction, and rewriting the nonce inside them. */
module PowBuffer {
  import opened Machine
  import opened Chain
  import opened Bincode
  import opened Decode

  type Digest = seq<byte> -> Bytes32

  // ---- Proof-of-work buffers ----

  function StripTx(tx: Transaction): Transaction {
    tx.(inputs := [], outputs := [])
  }

  function StripTxs(txs: seq<Transaction>): (stripped: seq<Transaction>)
    ensures |stripped| == |txs| && forall i :: 0 <= i < |txs| ==> stripped[i] == StripTx(txs[i])
  {
    seq(|txs|, i requires 0 <= i < |txs| => StripTx(txs[i]))
  }

  /** The block that is encoded: no inputs, no outputs, no hash. */
  function Stripped(block: Block): Block {
    block.(transactions := StripTxs(block.transactions), meta := block.meta.(hash := None))
  }

  /** The inputs, twice. */
  function DigestInput(tx: Transaction): seq<byte> {
    Sized(tx.inputs, Input) + Sized(tx.inputs, Input)
  }

  function Digests(sha: Digest, txs: seq<Transaction>): (bytes: seq<byte>)
    ensures |bytes| == 32 * |txs|
  {
    if txs == [] then [] else Digests(sha, txs[..|txs| - 1]) + sha(DigestInput(txs[|txs| - 1]))
  }

  function Suffix(sha: Digest, block: Block): seq<byte> {
    if block.timestamp > SCIP1_MIGRATION then Digests(sha, block.transactions) else []
  }

  function BlockPow(sha: Digest, block: Block): seq<byte> {
    EncodedBlock(Stripped(block)) + Suffix(sha, block)
  }

  function BlockNonceOffset(block: Block): nat {
    |Header(Stripped(block))|
  }

  function TxHeader(tx: Transaction): seq<byte> {
    Sized(tx.inputs, Input) + (Sized(tx.outputs, Output) + OptionBytes(None))
  }

  function TransactionPow(tx: Transaction): seq<byte> {
    Tx(tx.(transactionId := None))
  }

  method BlockPowBuffer(sha: Digest, block: Block) returns (buffer: seq<byte>, nonceOffset: nat)
    ensures buffer == BlockPow(sha, block) && nonceOffset == BlockNonceOffset(block)
  {
    var txs := block.transactions;
    var txDigest := [];
    for i := 0 to |txs|
      invariant |txs| == |block.transactions|
      invariant forall k :: 0 <= k < i ==> txs[k] == StripTx(block.transactions[k])
      invariant forall k :: i <= k < |txs| ==> txs[k] == block.transactions[k]
      invariant txDigest == Digests(sha, block.transactions[..i])
    {
      var ioWriter := new Writer();
      ioWriter.WriteInputs(txs[i].inputs);
      ioWriter.WriteInputs(txs[i].inputs);
      assert [] + Sized(txs[i].inputs, Input) == Sized(txs[i].inputs, Input);
      assert ioWriter.buffer == DigestInput(txs[i]);
      txDigest := txDigest + sha(ioWriter.buffer);
      assert block.transactions[..i + 1][..i] == block.transactions[..i];
      txs := txs[i := txs[i].(inputs := [], outputs := [])];
    }
    assert block.transactions[..|txs|] == block.transactions;
    assert txs == StripTxs(block.transactions);
    var hashLess := block.(transactions := txs, meta := block.meta.(hash := None));
    var writer := new Writer();
    nonceOffset := writer.WriteBlock(hashLess);
    assert [] + EncodedBlock(hashLess) == EncodedBlock(hashLess);
    buffer := writer.buffer;
    if block.timestamp > SCIP1_MIGRATION {
      buffer := buffer + txDigest;
    } else {
      assert buffer + [] == buffer;
    }
  }

  method TransactionPowBuffer(tx: Transaction) returns (buffer: seq<byte>, nonceOffset: nat)
    ensures buffer == TransactionPow(tx) && nonceOffset == |TxHeader(tx)|
  {
    var normalized := tx.(transactionId := None);
    var writer := new Writer();
    writer.WriteInputs(normalized.inputs);
    writer.WriteOutputs(normalized.outputs);
    writer.WriteOption(normalized.transactionId);
    Nest3([], Sized(tx.inputs, Input), Sized(tx.outputs, Output), OptionBytes(None));
    assert [] + TxHeader(tx) == TxHeader(tx);
    nonceOffset := |writer.buffer|;
    writer.WriteVaruint(normalized.nonce);
    writer.WriteVaruint(normalized.timestamp);
    Assoc(TxHeader(tx), VarUint(tx.nonce), VarUint(tx.timestamp));
    TransactionPowParts(tx);
    buffer := writer.buffer;
  }

  lemma TransactionPowParts(tx: Transaction)
    ensures TransactionPow(tx) == TxHeader(tx) + (VarUint(tx.nonce) + VarUint(tx.timestamp))
  {
    var tail := VarUint(tx.nonce) + VarUint(tx.timestamp);
    Assoc(Sized(tx.inputs, Input), Sized(tx.outputs, Output) + OptionBytes(None), tail);
    Assoc(Sized(tx.outputs, Output), OptionBytes(None), tail);
  }

  // ---- What a proof-of-work buffer commits to ----

  lemma StrippedFits(block: Block)
    requires |block.transactions| < TWO_TO_THE_64 && |block.meta.addressFilter.bits| < TWO_TO_THE_64
    ensures FitsBlock(Stripped(block))
  {
  }

  /** Two blocks are hashed as the same bytes exactly when they agree on everything but the inputs and outputs
      of transactions and the stored hash, and, after the migration, on the digests of the inputs. */
  lemma BlockPowCommits(sha: Digest, a: Block, b: Block)
    requires |a.transactions| < TWO_TO_THE_64 && |a.meta.addressFilter.bits| < TWO_TO_THE_64
    requires |b.transactions| < TWO_TO_THE_64 && |b.meta.addressFilter.bits| < TWO_TO_THE_64
    ensures BlockPow(sha, a) == BlockPow(sha, b)
       <==> Stripped(a) == Stripped(b)
            && (a.timestamp > SCIP1_MIGRATION ==> Digests(sha, a.transactions) == Digests(sha, b.transactions))
  {
    StrippedFits(a);
    StrippedFits(b);
    if BlockPow(sha, a) == BlockPow(sha, b) {
      EncodingInjective(Stripped(a), Stripped(b), Suffix(sha, a), Suffix(sha, b));
    }
  }

  lemma SplitEqual(a: seq<byte>, b: seq<byte>, c: seq<byte>, d: seq<byte>)
    requires |a| == |c| && a + b == c + d
    ensures a == c && b == d
  {
    assert a == (a + b)[..|a|] && c == (c + d)[..|a|];
    assert b == (a + b)[|a|..] && d == (c + d)[|a|..];
  }

  /** Equal digest lists have equal digests, transaction by transaction. */
  lemma {:induction false} DigestsAgree(sha: Digest, a: seq<Transaction>, b: seq<Transaction>, i: nat)
    requires |a| == |b| && i < |a| && Digests(sha, a) == Digests(sha, b)
    ensures sha(DigestInput(a[i])) == sha(DigestInput(b[i]))
  {
    var n := |a| - 1;
    SplitEqual(Digests(sha, a[..n]), sha(DigestInput(a[n])), Digests(sha, b[..n]), sha(DigestInput(b[n])));
    if i < n {
      DigestsAgree(sha, a[..n], b[..n], i);
    }
  }

  /** What agreement of stripped blocks means, field by field. */
  lemma StrippedAgree(a: Block, b: Block)
    ensures Stripped(a) == Stripped(b)
       <==> && a.timestamp == b.timestamp && a.nonce == b.nonce
            && a.meta.(hash := None) == b.meta.(hash := None)
            && |a.transactions| == |b.transactions|
            && forall i :: 0 <= i < |a.transactions| ==>
                 && a.transactions[i].transactionId == b.transactions[i].transactionId
                 && a.transactions[i].nonce == b.transactions[i].nonce
                 && a.transactions[i].timestamp == b.transactions[i].timestamp
  {
    if Stripped(a) == Stripped(b) {
      assert StripTxs(a.transactions) == StripTxs(b.transactions);
      assert forall i :: 0 <= i < |a.transactions| ==> StripTx(a.transactions[i]) == StripTx(b.transactions[i]) by {
        forall i | 0 <= i < |a.transactions|
          ensures StripTx(a.transactions[i]) == StripTx(b.transactions[i])
        {
          assert StripTxs(a.transactions)[i] == StripTxs(b.transactions)[i];
        }
      }
    }
  }

  /** Two different inputs of one hash. */
  predicate Collision(sha: Digest, x: seq<byte>, y: seq<byte>) {
    x != y && sha(x) == sha(y)
  }

  /** Equal digest inputs are of equal inputs. */
  lemma DigestInputInjective(a: Transaction, b: Transaction)
    requires |a.inputs| < TWO_TO_THE_64 && |b.inputs| < TWO_TO_THE_64 && DigestInput(a) == DigestInput(b)
    ensures a.inputs == b.inputs
  {
    DecodeInputsOf(a.inputs, Sized(a.inputs, Input));
    DecodeInputsOf(b.inputs, Sized(b.inputs, Input));
  }

  /** What is digested for a transaction are its inputs twice: both copies decode to them. */
  lemma DigestInputDecodes(tx: Transaction) returns (rest: seq<byte>)
    requires |tx.inputs| < TWO_TO_THE_64
    ensures DecodeSized(DigestInput(tx), DecodeInput) == Some((tx.inputs, rest))
    ensures DecodeSized(rest, DecodeInput) == Some((tx.inputs, []))
  {
    rest := Sized(tx.inputs, Input);
    DecodeInputsOf(tx.inputs, rest);
    DecodeInputsOf(tx.inputs, []);
    assert rest + [] == rest;
  }

  /** Two transactions are hashed as the same bytes exactly when they agree on everything but the stored id. */
  lemma TransactionPowCommits(a: Transaction, b: Transaction)
    requires FitsTx(a) && FitsTx(b)
    ensures TransactionPow(a) == TransactionPow(b)
       <==> a.(transactionId := None) == b.(transactionId := None)
  {
    DecodeTxOf(a.(transactionId := None), []);
    DecodeTxOf(b.(transactionId := None), []);
    assert TransactionPow(a) + [] == TransactionPow(a) && TransactionPow(b) + [] == TransactionPow(b);
  }

  /** After the migration, two blocks that are hashed as the same bytes have the same transaction inputs, or two
      different byte strings with one digest are exhibited. */
  lemma BlockPowCommitsToInputs(sha: Digest, a: Block, b: Block) returns (x: seq<byte>, y: seq<byte>)
    requires |a.transactions| < TWO_TO_THE_64 && |a.meta.addressFilter.bits| < TWO_TO_THE_64
    requires |b.transactions| < TWO_TO_THE_64 && |b.meta.addressFilter.bits| < TWO_TO_THE_64
    requires forall i :: 0 <= i < |a.transactions| ==> |a.transactions[i].inputs| < TWO_TO_THE_64
    requires forall i :: 0 <= i < |b.transactions| ==> |b.transactions[i].inputs| < TWO_TO_THE_64
    requires a.timestamp > SCIP1_MIGRATION && BlockPow(sha, a) == BlockPow(sha, b)
    ensures |a.transactions| == |b.transactions|
    ensures (forall i :: 0 <= i < |a.transactions| ==> a.transactions[i].inputs == b.transactions[i].inputs)
            || Collision(sha, x, y)
  {
    BlockPowCommits(sha, a, b);
    StrippedAgree(a, b);
    x, y := [], [];
    if i :| 0 <= i < |a.transactions| && a.transactions[i].inputs != b.transactions[i].inputs {
      DigestsAgree(sha, a.transactions, b.transactions, i);
      x, y := DigestInput(a.transactions[i]), DigestInput(b.transactions[i]);
      if x == y {
        DigestInputInjective(a.transactions[i], b.transactions[i]);
      }
    }
  }

  // ---- Patching the nonce ----

  predicate CanPatch(buffer: seq<byte>, offset: nat) {
    offset < |buffer| && buffer[offset] == 253 && offset + 9 <= |buffer|
  }

  function Patched(buffer: seq<byte>, offset: nat, nonce: u64): (patched: seq<byte>)
    requires offset + 9 <= |buffer|
    ensures |patched| == |buffer|
  {
    buffer[..offset] + ([253] + LittleEndian(nonce, 8) + buffer[offset + 9..])
  }

  /** `write_nonce_le`: the eight bytes after the varint prefix. */
  method WriteNonceLe(buffer: array<byte>, at: nat, nonce: u64)
    requires at + 8 <= buffer.Length
    modifies buffer
    ensures buffer[..] == old(buffer[..at]) + LittleEndian(nonce, 8) + old(buffer[at + 8..])
  {
    for i := 0 to 8
      invariant forall k :: 0 <= k < i ==> buffer[at + k] == LittleEndian(nonce, 8)[k]
      invariant forall k :: 0 <= k < at || at + i <= k < buffer.Length ==> buffer[k] == old(buffer[k])
    {
      buffer[at + i] := ShiftRight8(nonce, i) % 0x100;
    }
    assert forall k :: at <= k < at + 8 ==> buffer[k] == LittleEndian(nonce, 8)[k - at] by {
      forall k | at <= k < at + 8
        ensures buffer[k] == LittleEndian(nonce, 8)[k - at]
      {
        assert buffer[at + (k - at)] == LittleEndian(nonce, 8)[k - at];
      }
    }
  }

  method PatchNonce(buffer: array<byte>, offset: nat, nonce: u64) returns (ok: bool)
    modifies buffer
    ensures ok == CanPatch(old(buffer[..]), offset)
    ensures buffer[..] == if ok then Patched(old(buffer[..]), offset, nonce) else old(buffer[..])
  {
    if offset >= buffer.Length {
      return false;
    }
    if buffer[offset] != 253 || offset + 9 > buffer.Length {
      return false;
    }
    buffer[offset] := 253;
    WriteNonceLe(buffer, offset + 1, nonce);
    ok := true;
  }

  /** A varint between two byte strings can be patched exactly when it is nine bytes wide,
      and the result is the re-encoding exactly when the new number is nine bytes wide too. */
  lemma PatchFrame(head: seq<byte>, v: u64, tail: seq<byte>, n: u64)
    ensures CanPatch(head + (VarUint(v) + tail), |head|) <==> v >= TWO_TO_THE_32
    ensures v >= TWO_TO_THE_32 ==>
              (Patched(head + (VarUint(v) + tail), |head|, n) == head + (VarUint(n) + tail) <==> n >= TWO_TO_THE_32)
  {
    var buffer := head + (VarUint(v) + tail);
    assert buffer[|head|] == VarUint(v)[0];
    if v >= TWO_TO_THE_32 {
      assert buffer[..|head|] == head && buffer[|head| + 9..] == tail;
      assert Patched(buffer, |head|, n) == head + ([253] + LittleEndian(n, 8) + tail);
      if n < TWO_TO_THE_32 {
        assert |VarUint(n)| < 9;
        assert |head + (VarUint(n) + tail)| < |buffer|;
      }
    }
  }

  /** A block template is patchable exactly when its nonce is at least 2^32, and patching it is then the same as
      encoding the block anew exactly for nonces of at least 2^32. */
  lemma BlockPatch(sha: Digest, block: Block, n: u64)
    ensures var template, offset := BlockPow(sha, block), BlockNonceOffset(block);
            && BlockNonceOffset(block.(nonce := n)) == offset
            && (CanPatch(template, offset) <==> block.nonce >= TWO_TO_THE_32)
            && (CanPatch(template, offset) ==>
                  (Patched(template, offset, n) == BlockPow(sha, block.(nonce := n)) <==> n >= TWO_TO_THE_32))
  {
    var tail := Meta(Stripped(block).meta) + Suffix(sha, block);
    BlockPowParts(sha, block);
    BlockPowParts(sha, block.(nonce := n));
    PatchFrame(Header(Stripped(block)), block.nonce, tail, n);
  }

  lemma BlockPowParts(sha: Digest, block: Block)
    ensures BlockPow(sha, block)
         == Header(Stripped(block)) + (VarUint(block.nonce) + (Meta(Stripped(block).meta) + Suffix(sha, block)))
  {
    var meta := Meta(Stripped(block).meta);
    Assoc(Header(Stripped(block)), VarUint(block.nonce) + meta, Suffix(sha, block));
    Assoc(VarUint(block.nonce), meta, Suffix(sha, block));
  }

  lemma TransactionPatch(tx: Transaction, n: u64)
    ensures var template, offset := TransactionPow(tx), |TxHeader(tx)|;
            && |TxHeader(tx.(nonce := n))| == offset
            && (CanPatch(template, offset) <==> tx.nonce >= TWO_TO_THE_32)
            && (CanPatch(template, offset) ==>
                  (Patched(template, offset, n) == TransactionPow(tx.(nonce := n)) <==> n >= TWO_TO_THE_32))
  {
    TransactionPowParts(tx);
    TransactionPowParts(tx.(nonce := n));
    PatchFrame(TxHeader(tx), tx.nonce, VarUint(tx.timestamp), n);
  }

  /** Patching twice is patching once with the last nonce; the buffer stays patchable. */
  lemma PatchTwice(buffer: seq<byte>, offset: nat, m: u64, n: u64)
    requires offset + 9 <= |buffer|
    ensures Patched(Patched(buffer, offset, m), offset, n) == Patched(buffer, offset, n)
    ensures CanPatch(Patched(buffer, offset, m), offset)
  {
    var once := Patched(buffer, offset, m);
    assert once[..offset] == buffer[..offset] && once[offset + 9..] == buffer[offset + 9..];
  }

  // ---- Where nonces start ----

  /** One step of the generator; the result has exactly 33 significant bits. */
  method NextNonceBase(seed: bv64) returns (base: bv64, next: bv64)
    ensures 0x1_0000_0000 <= base < 0x2_0000_0000
    ensures next == seed + 0x9E37_79B9_7F4A_7C15
  {
    var x := seed;
    next := seed + 0x9E37_79B9_7F4A_7C15;
    x := x ^ (x >> 30);
    x := x * 0xBF58_476D_1CE4_E5B9;
    x := x ^ (x >> 27);
    x := x * 0x94D0_49BB_1331_11EB;
    x := x ^ (x >> 31);
    base := 0x1_0000_0000 | (x & 0xFFFF_FFFF);
  }
}
