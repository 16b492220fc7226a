/** A hash that pads its message and folds a compression function over 64-byte blocks, computed as one
    streaming loop over a reused block buffer (sections 5.1.1, 5.2.1 and 6.2.2 of FIPS 180-4). */
module Stream {
  import opened Machine
  import Radix

  type Block64 = s: seq<byte> | |s| == 64 witness seq(64, _ => 0)
  type Compression<!S> = (S, Block64) -> S

  /** The number of zero bytes between the end mark and the length. */
  function ZeroCount(n: nat): nat {
    if n % 64 < 56 then 55 - n % 64 else 119 - n % 64
  }

  function LengthBytes(bits: nat): (bytes: seq<byte>)
    ensures |bytes| == 8 && forall i :: 0 <= i < 8 ==> bytes[i] == ShiftRight8(bits, 7 - i) % 0x100
  {
    seq(8, i requires 0 <= i < 8 => ShiftRight8(bits, 7 - i) % 0x100)
  }

  function Zeros(n: nat): (bytes: seq<byte>)
    ensures |bytes| == n && forall i :: 0 <= i < n ==> bytes[i] == 0
  {
    seq(n, _ => 0)
  }

  /** What is appended to a message of `n` bytes; the bit count is a 64-bit number. */
  function Padding(n: nat): seq<byte> {
    [0x80] + Zeros(ZeroCount(n)) + LengthBytes(8 * n % TWO_TO_THE_64)
  }

  lemma RoundsUp(n: nat)
    ensures n + 1 + ZeroCount(n) == 64 * ((n + 8) / 64) + 56
    ensures ZeroCount(n) < 64
    ensures (n + 1 + ZeroCount(n)) % 64 == 56 && (n + 1 + ZeroCount(n) + 8) % 64 == 0
  {
    var q, r := n / 64, n % 64;
    assert n == 64 * q + r;
    if r < 56 {
      assert (n + 8) / 64 == q;
    } else {
      assert (n + 8) / 64 == q + 1;
    }
  }

  function Pad(data: seq<byte>): (padded: seq<byte>)
    ensures |padded| % 64 == 0
  {
    RoundsUp(|data|);
    data + Padding(|data|)
  }

  function BlockAt(data: seq<byte>, i: nat): Block64
    requires 64 * (i + 1) <= |data|
  {
    data[64 * i..64 * (i + 1)]
  }

  /** The state after the first `n` blocks of `data`. */
  function HashBlocks<S>(compress: Compression<S>, initial: S, data: seq<byte>, n: nat): S
    requires 64 * n <= |data|
  {
    if n == 0 then initial else compress(HashBlocks(compress, initial, data, n - 1), BlockAt(data, n - 1))
  }

  function PaddedHash<S>(compress: Compression<S>, initial: S, data: seq<byte>): S {
    HashBlocks(compress, initial, Pad(data), |Pad(data)| / 64)
  }

  // ---- Properties of the padding ----

  /** The padding is the shortest one that leaves room for the length at the end of a block. */
  lemma ZeroCountIsLeast(n: nat, zeros: nat)
    ensures (n + 1 + ZeroCount(n)) % 64 == 56
    ensures (n + 1 + zeros) % 64 == 56 ==> ZeroCount(n) <= zeros
  {
    RoundsUp(n);
    if (n + 1 + zeros) % 64 == 56 {
      assert n + 1 + zeros == 64 * ((n + 1 + zeros) / 64) + 56;
    }
  }

  lemma {:induction false} FixedDigitsAt(len: nat, n: nat, i: nat)
    requires i < len
    ensures Radix.FixedDigits(0x100, len, n)[len - 1 - i] == ShiftRight8(n, i) % 0x100
  {
    if i > 0 {
      FixedDigitsAt(len - 1, n / 0x100, i - 1);
      ShiftStep(n, i - 1);
    }
  }

  lemma LengthBytesValue(bits: u64)
    ensures Radix.Value(0x100, LengthBytes(bits)) == bits
  {
    var digits := Radix.FixedDigits(0x100, 8, bits);
    forall i | 0 <= i < 8
      ensures digits[i] == LengthBytes(bits)[i]
    {
      FixedDigitsAt(8, bits, 7 - i);
    }
    assert digits == LengthBytes(bits);
    Radix.PowAdd(0x100, 4, 4);
    Radix.ValueOfFixedDigits(0x100, 8, bits);
  }

  /** Messages of fewer than 2^64 bits are padded to different byte strings. */
  lemma PadInjective(a: seq<byte>, b: seq<byte>)
    requires 8 * |a| < TWO_TO_THE_64 && 8 * |b| < TWO_TO_THE_64
    requires Pad(a) == Pad(b)
    ensures a == b
  {
    PadEnd(a);
    PadEnd(b);
    LengthBytesInjective(8 * |a|, 8 * |b|);
    PadStart(a);
    PadStart(b);
  }

  lemma LengthBytesInjective(m: u64, n: u64)
    requires LengthBytes(m) == LengthBytes(n)
    ensures m == n
  {
    LengthBytesValue(m);
    LengthBytesValue(n);
  }

  lemma PadStart(a: seq<byte>)
    ensures Pad(a)[..|a|] == a
  {
  }

  lemma PadEnd(a: seq<byte>)
    requires 8 * |a| < TWO_TO_THE_64
    ensures |Pad(a)| >= 8 && Pad(a)[|Pad(a)| - 8..] == LengthBytes(8 * |a|)
  {
  }

  /** Blocks that lie inside the message do not see the padding. */
  lemma {:induction false} HashBlocksPrefix<S>(compress: Compression<S>, initial: S, data: seq<byte>, more: seq<byte>,
      n: nat)
    requires 64 * n <= |data|
    ensures HashBlocks(compress, initial, data + more, n) == HashBlocks(compress, initial, data, n)
  {
    if n != 0 {
      HashBlocksPrefix(compress, initial, data, more, n - 1);
      assert BlockAt(data + more, n - 1) == BlockAt(data, n - 1);
    }
  }

  ghost predicate StartsWithTail(data: seq<byte>, block: Block64) {
    && (forall k :: 0 <= k < |data| % 64 ==> block[k] == data[64 * (|data| / 64) + k])
    && block[|data| % 64] == 0x80
  }

  ghost predicate EndsWithLength(data: seq<byte>, block: Block64) {
    block[56..] == LengthBytes(8 * |data| % TWO_TO_THE_64)
  }

  /** With room for the length, the padded message has one block more than the whole blocks of the message. */
  lemma OneBlock(data: seq<byte>, block: Block64)
    requires |data| % 64 < 56 && StartsWithTail(data, block) && EndsWithLength(data, block)
    requires forall k :: |data| % 64 < k < 56 ==> block[k] == 0
    ensures |Pad(data)| / 64 == |data| / 64 + 1
    ensures block == BlockAt(Pad(data), |data| / 64)
  {
    var whole, tail, padded := |data| / 64, |data| % 64, Pad(data);
    assert |data| == 64 * whole + tail && |padded| == 64 * (whole + 1);
    var expected := BlockAt(padded, whole);
    assert forall k :: tail <= k < 64 ==> expected[k] == Padding(|data|)[k - tail];
    assert expected[56..] == LengthBytes(8 * |data| % TWO_TO_THE_64);
  }

  lemma FirstOfTwo(data: seq<byte>, block: Block64)
    requires 56 <= |data| % 64 && StartsWithTail(data, block)
    requires forall k :: |data| % 64 < k < 64 ==> block[k] == 0
    ensures |Pad(data)| / 64 == |data| / 64 + 2
    ensures block == BlockAt(Pad(data), |data| / 64)
  {
    var whole, tail, padded := |data| / 64, |data| % 64, Pad(data);
    assert |data| == 64 * whole + tail && |padded| == 64 * (whole + 2);
    var expected := BlockAt(padded, whole);
    assert forall k :: tail <= k < 64 ==> expected[k] == Padding(|data|)[k - tail];
  }

  lemma LastOfTwo(data: seq<byte>, block: Block64)
    requires 56 <= |data| % 64 && EndsWithLength(data, block)
    requires forall k :: 0 <= k < 56 ==> block[k] == 0
    ensures |Pad(data)| / 64 == |data| / 64 + 2
    ensures block == BlockAt(Pad(data), |data| / 64 + 1)
  {
    var whole, tail, padded := |data| / 64, |data| % 64, Pad(data);
    assert |data| == 64 * whole + tail && |padded| == 64 * (whole + 2);
    var expected := BlockAt(padded, whole + 1);
    assert forall k :: 0 <= k < 64 ==> expected[k] == Padding(|data|)[64 + k - tail];
    assert expected[56..] == LengthBytes(8 * |data| % TWO_TO_THE_64);
  }

  class Context<S> {
    const compress: Compression<S>
    const initial: S
    var state: S
    const block: array<byte>
    var bitLength: u64
    var blockLen: nat
    ghost var blocks: nat  // whole blocks compressed so far

    constructor (compress: Compression<S>, initial: S)
      ensures this.compress == compress && this.initial == initial
      ensures fresh(block) && HasRead([], 0)
    {
      this.compress := compress;
      this.initial := initial;
      state := initial;
      block := new byte[64](_ => 0);
      bitLength := 0;
      blockLen := 0;
      blocks := 0;
    }

    /** The context after the first `i` bytes: whole blocks are compressed, the others wait in `block`. */
    ghost predicate HasRead(data: seq<byte>, i: nat)
      reads this, block
    {
      && block.Length == 64 && blockLen < 64
      && i == 64 * blocks + blockLen <= |data|
      && state == HashBlocks(compress, initial, data, blocks)
      && bitLength == 512 * blocks % TWO_TO_THE_64
      && forall k :: 0 <= k < blockLen ==> block[k] == data[64 * blocks + k]
    }

    method Transform()
      requires block.Length == 64
      modifies this`state
      ensures state == compress(old(state), block[..])
    {
      state := compress(state, block[..]);
    }

    method Read(data: seq<byte>, i: nat)
      requires i < |data| && HasRead(data, i)
      modifies this, block
      ensures HasRead(data, i + 1)
    {
      block[blockLen] := data[i];
      blockLen := blockLen + 1;
      if blockLen == 64 {
        assert block[..] == BlockAt(data, blocks);
        Flush(data);
      }
    }

    method Flush(ghost data: seq<byte>)
      requires block.Length == 64 && blockLen == 64 && 64 * (blocks + 1) <= |data|
      requires block[..] == BlockAt(data, blocks)
      requires state == HashBlocks(compress, initial, data, blocks)
      requires bitLength == 512 * blocks % TWO_TO_THE_64
      modifies this
      ensures HasRead(data, 64 * (old(blocks) + 1))
    {
      Transform();
      AddModulo(512 * blocks, 512);
      bitLength := (bitLength + 512) % TWO_TO_THE_64;
      blockLen := 0;
      blocks := blocks + 1;
    }

    /** Fills `block[from..to]` with zeros. */
    method FillZeros(from: nat, to: nat)
      requires block.Length == 64 && from <= to <= 64
      modifies block
      ensures forall k :: 0 <= k < 64 ==> block[k] == if from <= k < to then 0 else old(block[k])
    {
      var i := from;
      while i < to
        invariant from <= i <= to
        invariant forall k :: 0 <= k < 64 ==> block[k] == if from <= k < i then 0 else old(block[k])
      {
        block[i] := 0;
        i := i + 1;
      }
    }

    method WriteLength()
      requires block.Length == 64
      modifies block
      ensures block[56..] == LengthBytes(bitLength)
      ensures forall k :: 0 <= k < 56 ==> block[k] == old(block[k])
    {
      block[63] := ShiftRight8(bitLength, 0) % 0x100;
      block[62] := ShiftRight8(bitLength, 1) % 0x100;
      block[61] := ShiftRight8(bitLength, 2) % 0x100;
      block[60] := ShiftRight8(bitLength, 3) % 0x100;
      block[59] := ShiftRight8(bitLength, 4) % 0x100;
      block[58] := ShiftRight8(bitLength, 5) % 0x100;
      block[57] := ShiftRight8(bitLength, 6) % 0x100;
      block[56] := ShiftRight8(bitLength, 7) % 0x100;
    }

    /** The number of bits read, in 64 bits. */
    method CountBits(ghost data: seq<byte>)
      requires HasRead(data, |data|)
      modifies this`bitLength
      ensures bitLength == 8 * |data| % TWO_TO_THE_64
    {
      AddModulo(512 * blocks, blockLen * 8);
      bitLength := (bitLength + blockLen * 8) % TWO_TO_THE_64;
    }

    /** The end mark, the zeros and the length, in one block or two. */
    method Finish(data: seq<byte>)
      requires HasRead(data, |data|)
      modifies this, block
      ensures state == PaddedHash(compress, initial, data)
    {
      HashBlocksPrefix(compress, initial, data, Padding(|data|), blocks);
      assert blocks == |data| / 64 && blockLen == |data| % 64;
      if blockLen < 56 {
        FinishInOne(data);
      } else {
        FinishInTwo(data);
      }
    }

    method FinishInOne(data: seq<byte>)
      requires HasRead(data, |data|) && blockLen < 56
      requires blocks == |data| / 64 && blockLen == |data| % 64
      requires state == HashBlocks(compress, initial, Pad(data), blocks)
      modifies this, block
      ensures state == PaddedHash(compress, initial, data)
    {
      CountBits(data);
      block[blockLen] := 0x80;
      FillZeros(blockLen + 1, 56);
      WriteLength();
      OneBlock(data, block[..]);
      Transform();
    }

    method FinishInTwo(data: seq<byte>)
      requires HasRead(data, |data|) && 56 <= blockLen
      requires blocks == |data| / 64 && blockLen == |data| % 64
      requires state == HashBlocks(compress, initial, Pad(data), blocks)
      modifies this, block
      ensures state == PaddedHash(compress, initial, data)
    {
      CountBits(data);
      block[blockLen] := 0x80;
      FillZeros(blockLen + 1, 64);
      FirstOfTwo(data, block[..]);
      Transform();
      assert state == HashBlocks(compress, initial, Pad(data), blocks + 1);
      FillZeros(0, 64);
      WriteLength();
      LastOfTwo(data, block[..]);
      Transform();
    }
  }

  method HashStream<S>(compress: Compression<S>, initial: S, data: seq<byte>) returns (state: S)
    ensures state == PaddedHash(compress, initial, data)
  {
    var context := new Context(compress, initial);
    for i := 0 to |data|
      invariant fresh(context) && fresh(context.block)
      invariant context.compress == compress && context.initial == initial
      invariant context.HasRead(data, i)
    {
      context.Read(data, i);
    }
    context.Finish(data);
    state := context.state;
  }
}
