/** SHA-256 as one streaming loop over a reused block buffer (FIPS 180-4). */
module Sha256 {
  import opened Machine
  import Radix
  import opened Stream

  // ---- The compression function, sections 4.1.2, 4.2.2 and 6.2.2 of FIPS 180-4 ----

  const K_0: seq<u32> := [
    0x428a2f98, 0x71374491, 0xb5c0fbcf, 0xe9b5dba5, 0x3956c25b, 0x59f111f1, 0x923f82a4, 0xab1c5ed5,
    0xd807aa98, 0x12835b01, 0x243185be, 0x550c7dc3, 0x72be5d74, 0x80deb1fe, 0x9bdc06a7, 0xc19bf174]

  const K_1: seq<u32> := [
    0xe49b69c1, 0xefbe4786, 0x0fc19dc6, 0x240ca1cc, 0x2de92c6f, 0x4a7484aa, 0x5cb0a9dc, 0x76f988da,
    0x983e5152, 0xa831c66d, 0xb00327c8, 0xbf597fc7, 0xc6e00bf3, 0xd5a79147, 0x06ca6351, 0x14292967]

  const K_2: seq<u32> := [
    0x27b70a85, 0x2e1b2138, 0x4d2c6dfc, 0x53380d13, 0x650a7354, 0x766a0abb, 0x81c2c92e, 0x92722c85,
    0xa2bfe8a1, 0xa81a664b, 0xc24b8b70, 0xc76c51a3, 0xd192e819, 0xd6990624, 0xf40e3585, 0x106aa070]

  const K_3: seq<u32> := [
    0x19a4c116, 0x1e376c08, 0x2748774c, 0x34b0bcb5, 0x391c0cb3, 0x4ed8aa4a, 0x5b9cca4f, 0x682e6ff3,
    0x748f82ee, 0x78a5636f, 0x84c87814, 0x8cc70208, 0x90befffa, 0xa4506ceb, 0xbef9a3f7, 0xc67178f2]

  const K: seq<u32> := (K_0 + K_1) + (K_2 + K_3)

  datatype State = State(a: u32, b: u32, c: u32, d: u32, e: u32, f: u32, g: u32, h: u32)

  const INITIAL := State(
    0x6a09e667, 0xbb67ae85, 0x3c6ef372, 0xa54ff53a, 0x510e527f, 0x9b05688c, 0x1f83d9ab, 0x5be0cd19)

  datatype BitOperation = And | Or | Xor

  function Bit(op: BitOperation, x: nat, y: nat): nat
    ensures Bit(op, x, y) <= 1
  {
    match op
    case And => if x == 1 && y == 1 then 1 else 0
    case Or => if x == 1 || y == 1 then 1 else 0
    case Xor => if x != y then 1 else 0
  }

  /** The lowest `n` bits of `x` and `y`, combined bit by bit. */
  function Bits(op: BitOperation, x: nat, y: nat, n: nat): (r: nat)
    ensures r < Radix.Pow(2, n)
    decreases n, x, y
  {
    if n == 0 then 0 else Bit(op, x % 2, y % 2) + 2 * Bits(op, x / 2, y / 2, n - 1)
  }

  lemma Pow32()
    ensures Radix.Pow(2, 32) == TWO_TO_THE_32
  {
    Radix.PowAdd(2, 8, 8);
    Radix.PowAdd(2, 16, 16);
  }

  function Bitwise(op: BitOperation, x: u32, y: u32): u32 {
    Pow32();
    Bits(op, x, y, 32)
  }

  function BitAt(x: nat, i: nat): nat {
    if i == 0 then x % 2 else BitAt(x / 2, i - 1)
  }

  /** Every bit of the combination is the combination of the bits. */
  lemma {:induction false} BitwiseBit(op: BitOperation, x: nat, y: nat, n: nat, i: nat)
    requires i < n
    ensures BitAt(Bits(op, x, y, n), i) == Bit(op, BitAt(x, i), BitAt(y, i))
    decreases n
  {
    var rest := Bits(op, x / 2, y / 2, n - 1);
    assert (Bit(op, x % 2, y % 2) + 2 * rest) / 2 == rest;
    if i > 0 {
      BitwiseBit(op, x / 2, y / 2, n - 1, i - 1);
    }
  }

  function Not(x: u32): u32 {
    TWO_TO_THE_32 - 1 - x
  }

  function Add(x: u32, y: u32): u32 {
    (x + y) % TWO_TO_THE_32
  }

  function ShiftRight(x: u32, n: nat): u32
    decreases n, x
  {
    if n == 0 then x else ShiftRight(x / 2, n - 1)
  }

  function ShiftLeft(x: u32, n: nat): u32
    decreases n, x
  {
    if n == 0 then x else ShiftLeft(x * 2 % TWO_TO_THE_32, n - 1)
  }

  function Rotr(x: u32, n: nat): u32
    requires n < 32
  {
    Bitwise(Or, ShiftRight(x, n), ShiftLeft(x, 32 - n))
  }

  function Xor3(x: u32, y: u32, z: u32): u32 {
    Bitwise(Xor, Bitwise(Xor, x, y), z)
  }

  function SmallSigma0(x: u32): u32 {
    Xor3(Rotr(x, 7), Rotr(x, 18), ShiftRight(x, 3))
  }

  function SmallSigma1(x: u32): u32 {
    Xor3(Rotr(x, 17), Rotr(x, 19), ShiftRight(x, 10))
  }

  function BigSigma0(x: u32): u32 {
    Xor3(Rotr(x, 2), Rotr(x, 13), Rotr(x, 22))
  }

  function BigSigma1(x: u32): u32 {
    Xor3(Rotr(x, 6), Rotr(x, 11), Rotr(x, 25))
  }

  function Choose(e: u32, f: u32, g: u32): u32 {
    Bitwise(Xor, Bitwise(And, e, f), Bitwise(And, Not(e), g))
  }

  function Majority(a: u32, b: u32, c: u32): u32 {
    Xor3(Bitwise(And, a, b), Bitwise(And, a, c), Bitwise(And, b, c))
  }

  function BigEndianWord(b0: byte, b1: byte, b2: byte, b3: byte): u32 {
    Bitwise(Or, Bitwise(Or, Bitwise(Or, ShiftLeft(b0, 24), ShiftLeft(b1, 16)), ShiftLeft(b2, 8)), b3)
  }

  function Word(block: Block64, i: nat): u32
    requires i < 16
  {
    BigEndianWord(block[4 * i], block[4 * i + 1], block[4 * i + 2], block[4 * i + 3])
  }

  function NextWord(w16: u32, w15: u32, w7: u32, w2: u32): u32 {
    Add(Add(Add(w16, SmallSigma0(w15)), w7), SmallSigma1(w2))
  }

  /** Word `i` of the message schedule. */
  function Schedule(block: Block64, i: nat): u32 {
    if i < 16 then Word(block, i)
    else NextWord(Schedule(block, i - 16), Schedule(block, i - 15), Schedule(block, i - 7), Schedule(block, i - 2))
  }

  /** The first `n` words of the message schedule. */
  function Expand(block: Block64, n: nat): (w: seq<u32>)
    ensures |w| == n
    decreases n, block
  {
    if n == 0 then [] else Expand(block, n - 1) + [Schedule(block, n - 1)]
  }

  function Round(s: State, k: u32, w: u32): State {
    var temp1 := Add(Add(Add(Add(s.h, BigSigma1(s.e)), Choose(s.e, s.f, s.g)), k), w);
    var temp2 := Add(BigSigma0(s.a), Majority(s.a, s.b, s.c));
    State(Add(temp1, temp2), s.a, s.b, s.c, Add(s.d, temp1), s.e, s.f, s.g)
  }

  /** The state after `n` rounds with constants `k` and schedule `w`. */
  function Rounds(s: State, k: seq<u32>, w: seq<u32>, n: nat): State
    requires n <= |k| && n <= |w|
  {
    if n == 0 then s else Round(Rounds(s, k, w, n - 1), k[n - 1], w[n - 1])
  }

  function AddStates(x: State, y: State): State {
    State(Add(x.a, y.a), Add(x.b, y.b), Add(x.c, y.c), Add(x.d, y.d),
          Add(x.e, y.e), Add(x.f, y.f), Add(x.g, y.g), Add(x.h, y.h))
  }

  function Compress(s: State, block: Block64): State {
    AddStates(s, Rounds(s, K, Expand(block, 64), 64))
  }

  // ---- The digest ----

  function WordByte(x: u32, j: nat): byte
    requires j < 4
  {
    ShiftRight(x, 24 - 8 * j) % 0x100
  }

  function StateWord(s: State, q: nat): u32
    requires q < 8
  {
    match q
    case 0 => s.a
    case 1 => s.b
    case 2 => s.c
    case 3 => s.d
    case 4 => s.e
    case 5 => s.f
    case 6 => s.g
    case 7 => s.h
  }

  /** Byte `m` of the digest: the words in order, each with its highest byte first. */
  function StateByte(s: State, m: nat): byte
    requires m < 32
  {
    WordByte(StateWord(s, m / 4), m % 4)
  }

  function StateBytes(s: State): (bytes: Bytes32)
    ensures forall m :: 0 <= m < 32 ==> bytes[m] == StateByte(s, m)
  {
    seq(32, m requires 0 <= m < 32 => StateByte(s, m))
  }

  function Digest(data: seq<byte>): Bytes32 {
    StateBytes(PaddedHash(Compress, INITIAL, data))
  }

  // ---- The loops ----

  /** The streaming computation gives the digest of the padded message, for every message. */
  method Hash(data: seq<byte>) returns (out: Bytes32)
    ensures out == Digest(data)
  {
    var state := HashStream(Compress, INITIAL, data);
    out := Output(state);
  }

  /** The transformation of one block: the schedule, 64 rounds, and the sum with the old state. */
  method Transform(state: State, block: array<byte>) returns (r: State)
    requires block.Length == 64
    ensures r == Compress(state, block[..])
  {
    var w := ExpandBlock(block);
    var rounds := RunRounds(state, K, w[..]);
    r := AddStates(state, rounds);
  }

  method Output(s: State) returns (out: Bytes32)
    ensures out == StateBytes(s)
  {
    var bytes := new byte[32](_ => 0);
    for j := 0 to 4
      invariant forall m :: 0 <= m < 32 && m % 4 < j ==> bytes[m] == StateByte(s, m)
    {
      PutColumn(s, bytes, j);
    }
    out := bytes[..];
  }

  /** Byte `j` of each word. */
  method PutColumn(s: State, bytes: array<byte>, j: nat)
    requires bytes.Length == 32 && j < 4
    modifies bytes
    ensures forall m :: 0 <= m < 32 ==> bytes[m] == if m % 4 == j then StateByte(s, m) else old(bytes[m])
  {
    bytes[j] := WordByte(s.a, j);
    bytes[j + 4] := WordByte(s.b, j);
    bytes[j + 8] := WordByte(s.c, j);
    bytes[j + 12] := WordByte(s.d, j);
    bytes[j + 16] := WordByte(s.e, j);
    bytes[j + 20] := WordByte(s.f, j);
    bytes[j + 24] := WordByte(s.g, j);
    bytes[j + 28] := WordByte(s.h, j);
  }

  method ExpandBlock(block: array<byte>) returns (w: array<u32>)
    requires block.Length == 64
    ensures fresh(w) && w[..] == Expand(block[..], 64)
  {
    ghost var input: Block64 := block[..];
    w := new u32[64];
    LoadWords(block, w);
    ExtendWords(w, input);
    ExpandIs(input, w[..], 64);
    assert w[..64] == w[..];
  }

  method LoadWords(block: array<byte>, w: array<u32>)
    requires block.Length == 64 && w.Length == 64
    modifies w
    ensures forall k :: 0 <= k < 16 ==> w[k] == Schedule(block[..], k)
  {
    for i := 0 to 16
      invariant forall k :: 0 <= k < i ==> w[k] == Word(block[..], k)
    {
      w[i] := BigEndianWord(block[i * 4], block[i * 4 + 1], block[i * 4 + 2], block[i * 4 + 3]);
    }
  }

  method ExtendWords(w: array<u32>, ghost block: Block64)
    requires w.Length == 64
    requires forall k :: 0 <= k < 16 ==> w[k] == Schedule(block, k)
    modifies w
    ensures forall k :: 0 <= k < 64 ==> w[k] == Schedule(block, k)
  {
    for i := 16 to 64
      invariant forall k :: 0 <= k < i ==> w[k] == Schedule(block, k)
    {
      var word := NextWordOf(w, block, i);
      w[i] := word;
    }
  }

  method NextWordOf(w: array<u32>, ghost block: Block64, i: nat) returns (word: u32)
    requires w.Length == 64 && 16 <= i < 64
    requires forall k :: 0 <= k < i ==> w[k] == Schedule(block, k)
    ensures word == Schedule(block, i)
  {
    ScheduleStep(block, i);
    word := NextWord(w[i - 16], w[i - 15], w[i - 7], w[i - 2]);
  }

  lemma ScheduleStep(block: Block64, i: nat)
    requires 16 <= i
    ensures Schedule(block, i)
         == NextWord(Schedule(block, i - 16), Schedule(block, i - 15), Schedule(block, i - 7), Schedule(block, i - 2))
  {
  }

  lemma {:induction false} ExpandIs(block: Block64, w: seq<u32>, n: nat)
    requires n <= |w| && forall k :: 0 <= k < n ==> w[k] == Schedule(block, k)
    ensures Expand(block, n) == w[..n]
  {
    if n != 0 {
      ExpandIs(block, w, n - 1);
      assert w[..n] == w[..n - 1] + [w[n - 1]];
    }
  }

  method RunRounds(s: State, k: seq<u32>, w: seq<u32>) returns (r: State)
    requires |k| == 64 && |w| == 64
    ensures r == Rounds(s, k, w, 64)
  {
    var a, b, c, d, e, f, g, h := s.a, s.b, s.c, s.d, s.e, s.f, s.g, s.h;
    for i := 0 to 64
      invariant State(a, b, c, d, e, f, g, h) == Rounds(s, k, w, i)
    {
      var s1 := BigSigma1(e);
      var ch := Choose(e, f, g);
      var temp1 := Add(Add(Add(Add(h, s1), ch), k[i]), w[i]);
      var s0 := BigSigma0(a);
      var maj := Majority(a, b, c);
      var temp2 := Add(s0, maj);
      h := g;
      g := f;
      f := e;
      e := Add(d, temp1);
      d := c;
      c := b;
      b := a;
      a := Add(temp1, temp2);
    }
    r := State(a, b, c, d, e, f, g, h);
  }
}
