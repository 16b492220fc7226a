/** Single bits of bytes and of byte strings. */
module FilterBits {
  import opened Machine
  import opened Decode

  /** Bit `k` of a byte, the lowest being bit 0. */
  function HasBit(b: nat, k: nat): bool {
    if k == 0 then b % 2 == 1 else HasBit(b / 2, k - 1)
  }

  /** `b | (1 << k)`. */
  function OrBit(b: nat, k: nat): nat {
    if k == 0 then (if b % 2 == 1 then b else b + 1) else OrBit(b / 2, k - 1) * 2 + b % 2
  }

  function Shift1(k: nat): nat {
    if k == 0 then 1 else 2 * Shift1(k - 1)
  }

  lemma HalfAndRest(n: nat, bit: nat)
    requires bit < 2
    ensures (n * 2 + bit) / 2 == n && (n * 2 + bit) % 2 == bit
  {
  }

  /** A number from its lowest bit and the others. */
  lemma Doubled(higher: nat, bit: nat, width: nat, j: nat)
    requires width > 0 && higher < Shift1(width - 1) && bit < 2
    ensures higher * 2 + bit < Shift1(width)
    ensures HasBit(higher * 2 + bit, j) <==> if j == 0 then bit == 1 else HasBit(higher, j - 1)
  {
    HalfAndRest(higher, bit);
  }

  lemma Halved(b: nat, width: nat, j: nat)
    requires width > 0 && b < Shift1(width)
    ensures b / 2 < Shift1(width - 1) && b % 2 < 2
    ensures HasBit(b, j) <==> if j == 0 then b % 2 == 1 else HasBit(b / 2, j - 1)
  {
  }

  lemma OrLowest(b: nat, j: nat, width: nat)
    requires width > 0 && b < Shift1(width)
    ensures OrBit(b, 0) < Shift1(width)
    ensures HasBit(OrBit(b, 0), j) <==> j == 0 || HasBit(b, j)
  {
    Halved(b, width, j);
    Doubled(b / 2, 1, width, j);
    assert OrBit(b, 0) == b / 2 * 2 + 1;
  }

  /** Setting a bit sets that bit and no other, and stays below any power of two that bounds both operands. */
  lemma {:induction false} OrBitBits(b: nat, k: nat, j: nat, width: nat)
    requires b < Shift1(width) && k < width
    ensures OrBit(b, k) < Shift1(width)
    ensures HasBit(OrBit(b, k), j) <==> j == k || HasBit(b, j)
  {
    if k == 0 {
      OrLowest(b, j, width);
    } else {
      Halved(b, width, j);
      OrBitBits(b / 2, k - 1, if j == 0 then 0 else j - 1, width - 1);
      Doubled(OrBit(b / 2, k - 1), b % 2, width, j);
    }
  }

  /** A byte is determined by its bits. */
  lemma {:induction false} SameBits(a: nat, b: nat, width: nat)
    requires a < Shift1(width) && b < Shift1(width)
    requires forall k :: 0 <= k < width ==> HasBit(a, k) == HasBit(b, k)
    ensures a == b
  {
    if width > 0 {
      forall k | 0 <= k < width - 1
        ensures HasBit(a / 2, k) == HasBit(b / 2, k)
      {
        assert HasBit(a, k + 1) == HasBit(b, k + 1);
      }
      SameBits(a / 2, b / 2, width - 1);
      assert HasBit(a, 0) == HasBit(b, 0);
    }
  }

  /** Bit `n` of a byte string. */
  predicate BitAt(bits: seq<byte>, n: nat)
    requires n / 8 < |bits|
  {
    HasBit(bits[n / 8], n % 8)
  }

  /** Byte strings of one length with the same bits are the same. */
  lemma SameBitString(a: seq<byte>, b: seq<byte>)
    requires |a| == |b| && forall n: nat :: n < 8 * |a| ==> BitAt(a, n) == BitAt(b, n)
    ensures a == b
  {
    forall i | 0 <= i < |a|
      ensures a[i] == b[i]
    {
      forall k | 0 <= k < 8
        ensures HasBit(a[i], k) == HasBit(b[i], k)
      {
        assert BitAt(a, 8 * i + k) == BitAt(b, 8 * i + k);
      }
      ByteWidth();
      SameBits(a[i], b[i], 8);
    }
  }

  lemma ByteWidth()
    ensures Shift1(8) == 0x100
  {
  }

  lemma HalfOfSum(x: nat, y: nat)
    ensures (x + 2 * y) / 2 == x / 2 + y && (x + 2 * y) % 2 == x % 2
  {
  }

  /** The bits of a number in two parts. */
  lemma {:induction false} BitsOfParts(low: nat, high: nat, width: nat, j: nat)
    requires low < Shift1(width)
    ensures HasBit(low + Shift1(width) * high, j) <==> if j < width then HasBit(low, j) else HasBit(high, j - width)
    decreases width
  {
    if width > 0 {
      var half := Shift1(width - 1) * high;
      assert Shift1(width) * high == 2 * half;
      HalfOfSum(low, half);
      if j > 0 {
        BitsOfParts(low / 2, high, width - 1, j - 1);
      }
    }
  }

  /** A byte string is one number, with its lowest byte first: their bits are the same. */
  lemma {:induction false} BitsOfNumber(bits: seq<byte>, n: nat)
    requires n / 8 < |bits|
    ensures BitAt(bits, n) <==> HasBit(LeValue(bits), n)
  {
    ByteWidth();
    BitsOfParts(bits[0], LeValue(bits[1..]), 8, n);
    if n >= 8 {
      BitsOfNumber(bits[1..], n - 8);
      assert n / 8 - 1 == (n - 8) / 8 && n % 8 == (n - 8) % 8;
      assert bits[1..][n / 8 - 1] == bits[n / 8];
    }
  }

  method SetBit(bits: array<byte>, n: nat)
    requires n / 8 < bits.Length
    modifies bits
    ensures forall m: nat :: m < 8 * bits.Length ==> (BitAt(bits[..], m) <==> m == n || BitAt(old(bits[..]), m))
  {
    ghost var before := bits[..];
    ByteWidth();
    OrBitBits(bits[n / 8], n % 8, 0, 8);
    bits[n / 8] := OrBit(bits[n / 8], n % 8);
    forall m: nat | m < 8 * bits.Length
      ensures BitAt(bits[..], m) <==> m == n || BitAt(before, m)
    {
      if m / 8 == n / 8 {
        OrBitBits(before[n / 8], n % 8, m % 8, 8);
      }
    }
  }

  lemma {:induction false} ZeroHasNoBit(k: nat)
    ensures !HasBit(0, k)
  {
    if k > 0 {
      ZeroHasNoBit(k - 1);
    }
  }
}
