/** What the functions of SHA-256 do to single bits (sections 2.2.2, 3.2 and 4.1.2 of FIPS 180-4). */
module Sha256Bits {
  import opened Machine
  import Radix
  import opened Sha256

  // ---- Shifts, rotations and complement ----

  lemma {:induction false} BitIsBit(x: nat, i: nat)
    ensures BitAt(x, i) <= 1
  {
    if i > 0 {
      BitIsBit(x / 2, i - 1);
    }
  }

  lemma {:induction false} HighBits(x: nat, n: nat)
    requires x < Radix.Pow(2, n)
    ensures BitAt(x, n) == 0
  {
    if n > 0 {
      HighBits(x / 2, n - 1);
    }
  }

  lemma HighBitsOfWord(x: u32, i: nat)
    requires i >= 32
    ensures BitAt(x, i) == 0
  {
    Pow32();
    Radix.PowMonotone(2, 32, i);
    HighBits(x, i);
  }

  lemma {:induction false} ShiftRightBit(x: u32, n: nat, i: nat)
    ensures BitAt(ShiftRight(x, n), i) == BitAt(x, i + n)
    decreases n
  {
    if n > 0 {
      ShiftRightBit(x / 2, n - 1, i);
    }
  }

  /** The lowest `n` bits do not see what is above them. */
  lemma {:induction false} LowBits(x: nat, q: nat, n: nat, i: nat)
    requires i < n
    ensures BitAt(x + q * Radix.Pow(2, n), i) == BitAt(x, i)
    decreases n
  {
    var half := q * Radix.Pow(2, n - 1);
    assert q * Radix.Pow(2, n) == 2 * half;
    assert (x + 2 * half) % 2 == x % 2 && (x + 2 * half) / 2 == x / 2 + half;
    if i > 0 {
      LowBits(x / 2, q, n - 1, i - 1);
    }
  }

  lemma DoubledBit(x: u32, i: nat)
    requires i < 32
    ensures BitAt(x * 2 % TWO_TO_THE_32, i) == if i == 0 then 0 else BitAt(x, i - 1)
  {
    Pow32();
    LowBits(x * 2 % TWO_TO_THE_32, x * 2 / TWO_TO_THE_32, 32, i);
  }

  lemma {:induction false} ShiftLeftBit(x: u32, n: nat, i: nat)
    requires i < 32
    ensures BitAt(ShiftLeft(x, n), i) == if i < n then 0 else BitAt(x, i - n)
    decreases n
  {
    if n > 0 {
      ShiftLeftBit(x * 2 % TWO_TO_THE_32, n - 1, i);
      if i >= n - 1 {
        DoubledBit(x, i - (n - 1));
      }
    }
  }

  lemma RotrParts(x: u32, n: nat, i: nat)
    requires 0 < n < 32 && i < 32
    ensures BitAt(Rotr(x, n), i) == Bit(Or, BitAt(x, i + n), if i < 32 - n then 0 else BitAt(x, i - (32 - n)))
  {
    BitwiseBit(Or, ShiftRight(x, n), ShiftLeft(x, 32 - n), 32, i);
    ShiftRightBit(x, n, i);
    ShiftLeftBit(x, 32 - n, i);
  }

  /** `n` places up, round the end. */
  function Around(i: nat, n: nat): nat {
    if i + n < 32 then i + n else i + n - 32
  }

  /** A rotation moves each bit `n` places down, round the end. */
  lemma RotrBit(x: u32, n: nat, i: nat)
    requires 0 < n < 32 && i < 32
    ensures BitAt(Rotr(x, n), i) == BitAt(x, Around(i, n))
  {
    RotrParts(x, n, i);
    if i + n >= 32 {
      HighBitsOfWord(x, i + n);
    }
    BitIsBit(x, Around(i, n));
  }

  lemma {:induction false} ComplementBit(x: nat, n: nat, i: nat)
    requires x < Radix.Pow(2, n) && i < n
    ensures BitAt(Radix.Pow(2, n) - 1 - x, i) == 1 - BitAt(x, i)
    decreases n
  {
    var half := Radix.Pow(2, n - 1);
    assert (2 * half - 1 - x) / 2 == half - 1 - x / 2 && (2 * half - 1 - x) % 2 == 1 - x % 2;
    if i > 0 {
      ComplementBit(x / 2, n - 1, i - 1);
    }
  }

  lemma NotBit(x: u32, i: nat)
    requires i < 32
    ensures BitAt(Not(x), i) == 1 - BitAt(x, i)
  {
    Pow32();
    ComplementBit(x, 32, i);
  }

  // ---- The six functions of section 4.1.2 ----

  lemma XorOf(x: u32, y: u32, i: nat, p: nat, q: nat)
    requires i < 32 && BitAt(x, i) == p && BitAt(y, i) == q
    ensures BitAt(Bitwise(Xor, x, y), i) == Bit(Xor, p, q)
  {
    BitwiseBit(Xor, x, y, 32, i);
  }

  /** Each bit of `e` chooses between the bits of `f` and `g`. */
  lemma ChooseBit(e: u32, f: u32, g: u32, i: nat)
    requires i < 32
    ensures BitAt(Choose(e, f, g), i) == if BitAt(e, i) == 1 then BitAt(f, i) else BitAt(g, i)
  {
    NotBit(e, i);
    BitwiseBit(And, e, f, 32, i);
    BitwiseBit(And, Not(e), g, 32, i);
    XorOf(Bitwise(And, e, f), Bitwise(And, Not(e), g), i, Bit(And, BitAt(e, i), BitAt(f, i)),
      Bit(And, 1 - BitAt(e, i), BitAt(g, i)));
    BitIsBit(e, i);
    BitIsBit(f, i);
    BitIsBit(g, i);
  }

  lemma Xor3Bit(x: u32, y: u32, z: u32, i: nat)
    requires i < 32
    ensures BitAt(Xor3(x, y, z), i) == (BitAt(x, i) + BitAt(y, i) + BitAt(z, i)) % 2
  {
    XorOf(x, y, i, BitAt(x, i), BitAt(y, i));
    XorOf(Bitwise(Xor, x, y), z, i, Bit(Xor, BitAt(x, i), BitAt(y, i)), BitAt(z, i));
    BitIsBit(x, i);
    BitIsBit(y, i);
    BitIsBit(z, i);
  }

  lemma Xor3Of(x: u32, y: u32, z: u32, i: nat, p: nat, q: nat, r: nat)
    requires i < 32 && BitAt(x, i) == p && BitAt(y, i) == q && BitAt(z, i) == r
    ensures BitAt(Xor3(x, y, z), i) == (p + q + r) % 2
  {
    Xor3Bit(x, y, z, i);
  }

  /** The bit that at least two of the three have. */
  lemma MajorityBit(a: u32, b: u32, c: u32, i: nat)
    requires i < 32
    ensures BitAt(Majority(a, b, c), i) == if BitAt(a, i) + BitAt(b, i) + BitAt(c, i) >= 2 then 1 else 0
  {
    BitwiseBit(And, a, b, 32, i);
    BitwiseBit(And, a, c, 32, i);
    BitwiseBit(And, b, c, 32, i);
    Xor3Bit(Bitwise(And, a, b), Bitwise(And, a, c), Bitwise(And, b, c), i);
    BitIsBit(a, i);
    BitIsBit(b, i);
    BitIsBit(c, i);
  }

  /** Bit `i` of a sum modulo 2 of three rotations. */
  function Rotated(x: u32, p: nat, q: nat, r: nat, i: nat): nat {
    (BitAt(x, Around(i, p)) + BitAt(x, Around(i, q)) + BitAt(x, Around(i, r))) % 2
  }

  lemma RotationsBit(x: u32, p: nat, q: nat, r: nat, i: nat)
    requires 0 < p < 32 && 0 < q < 32 && 0 < r < 32 && i < 32
    ensures BitAt(Xor3(Rotr(x, p), Rotr(x, q), Rotr(x, r)), i) == Rotated(x, p, q, r, i)
  {
    RotrBit(x, p, i);
    RotrBit(x, q, i);
    RotrBit(x, r, i);
    Xor3Of(Rotr(x, p), Rotr(x, q), Rotr(x, r), i, BitAt(x, Around(i, p)), BitAt(x, Around(i, q)),
      BitAt(x, Around(i, r)));
  }

  lemma BigSigmaBits(x: u32, i: nat)
    requires i < 32
    ensures BitAt(BigSigma0(x), i) == Rotated(x, 2, 13, 22, i)
    ensures BitAt(BigSigma1(x), i) == Rotated(x, 6, 11, 25, i)
  {
    RotationsBit(x, 2, 13, 22, i);
    RotationsBit(x, 6, 11, 25, i);
  }

  /** The same for two rotations and a shift, which brings in zeros. */
  function Shifted(x: u32, p: nat, q: nat, r: nat, i: nat): nat {
    (BitAt(x, Around(i, p)) + BitAt(x, Around(i, q)) + (if i + r < 32 then BitAt(x, i + r) else 0)) % 2
  }

  lemma ShiftedBit(x: u32, r: nat, i: nat)
    ensures BitAt(ShiftRight(x, r), i) == if i + r < 32 then BitAt(x, i + r) else 0
  {
    ShiftRightBit(x, r, i);
    if i + r >= 32 {
      HighBitsOfWord(x, i + r);
    }
  }

  lemma ShiftsBit(x: u32, p: nat, q: nat, r: nat, i: nat)
    requires 0 < p < 32 && 0 < q < 32 && i < 32
    ensures BitAt(Xor3(Rotr(x, p), Rotr(x, q), ShiftRight(x, r)), i) == Shifted(x, p, q, r, i)
  {
    RotrBit(x, p, i);
    RotrBit(x, q, i);
    ShiftedBit(x, r, i);
    Xor3Of(Rotr(x, p), Rotr(x, q), ShiftRight(x, r), i, BitAt(x, Around(i, p)), BitAt(x, Around(i, q)),
      if i + r < 32 then BitAt(x, i + r) else 0);
  }

  lemma SmallSigmaBits(x: u32, i: nat)
    requires i < 32
    ensures BitAt(SmallSigma0(x), i) == Shifted(x, 7, 18, 3, i)
    ensures BitAt(SmallSigma1(x), i) == Shifted(x, 17, 19, 10, i)
  {
    ShiftsBit(x, 7, 18, 3, i);
    ShiftsBit(x, 17, 19, 10, i);
  }
}
