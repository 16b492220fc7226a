/** 256-bit targets: scaling by a fraction in the three compiled variants, and comparing a hash with a target. */
module Target {
  import opened Machine
  import opened Radix
  import opened Decode

  const ALL_ONES: Bytes32 := Repeated(0xFF, 32)

  function Repeated(b: byte, n: nat): (bytes: seq<byte>)
    ensures |bytes| == n && forall i :: 0 <= i < n ==> bytes[i] == b
  {
    if n == 0 then [] else [b] + Repeated(b, n - 1)
  }

  /** `input * multiply / divide`, saturated when the product does not fit 256 bits. */
  function Scaled(input: Bytes32, multiply: u64, divide: u64): Bytes32
    requires divide > 0
  {
    if Overflows(input, multiply) then ALL_ONES
    else FixedDigits(0x100, |input|, Quotient(Value(0x100, input) * multiply, divide))
  }

  function Quotient(n: nat, d: nat): nat
    requires d > 0
  {
    n / d
  }

  predicate Overflows(input: Bytes32, multiply: u64) {
    Value(0x100, input) * multiply >= Pow(0x100, |input|)
  }

  // ---- Schoolbook arithmetic on bytes ----

  /** One byte of a product: the partial sums stay equal. */
  lemma MultiplyStep(input: seq<byte>, i: nat, low: seq<byte>, carry: nat, p: nat, m: nat, cur: nat)
    requires 0 < i <= |input| && |low| == |input| - i && p == Pow(0x100, |input| - i)
    requires cur == input[i - 1] * m + carry
    requires Value(0x100, low) + carry * p == Value(0x100, input[i..]) * m
    ensures Value(0x100, [cur % 0x100] + low) + cur / 0x100 * (0x100 * p) == Value(0x100, input[i - 1..]) * m
  {
    assert Value(0x100, [cur % 0x100] + low) == cur % 0x100 * p + Value(0x100, low) by {
      ValueCons(0x100, cur % 0x100, low);
    }
    assert Value(0x100, input[i - 1..]) == input[i - 1] * p + Value(0x100, input[i..]) by {
      assert input[i - 1..] == [input[i - 1]] + input[i..];
      ValueCons(0x100, input[i - 1], input[i..]);
    }
    SplitByte(cur, p);
    MultiplyArithmetic(input[i - 1], m, carry, p, Value(0x100, input[i..]));
  }

  /** A product by `multiply` of which the bytes from `i` on are done. */
  ghost predicate Multiplying(input: seq<byte>, multiplied: seq<byte>, i: nat, multiply: nat, carry: int) {
    && |input| == |multiplied| == 32 && i <= 32 && 0 <= carry <= multiply
    && Value(0x100, multiplied[i..]) + carry * Pow(0x100, 32 - i) == Value(0x100, input[i..]) * multiply
  }

  lemma MultiplyingStarts(input: seq<byte>, multiplied: seq<byte>, multiply: nat)
    requires |input| == |multiplied| == 32
    ensures Multiplying(input, multiplied, 32, multiply, 0)
  {
    assert multiplied[32..] == [] && input[32..] == [];
  }

  lemma MultiplyingEnds(input: seq<byte>, multiplied: seq<byte>, multiply: nat, carry: int)
    requires Multiplying(input, multiplied, 0, multiply, carry)
    ensures Value(0x100, multiplied) + carry * Pow(0x100, |multiplied|) == Value(0x100, input) * multiply
  {
    assert multiplied[0..] == multiplied && input[0..] == input;
  }

  lemma ProductAtMost(x: byte, m: nat)
    ensures 0 <= x * m <= 0xFF * m
  {
    MulLe(x, 0xFF, m);
  }

  lemma MultiplyDigit(input: seq<byte>, multiplied: seq<byte>, i: nat, multiply: nat, carry: nat, cur: nat)
    requires i > 0 && Multiplying(input, multiplied, i, multiply, carry) && cur == input[i - 1] * multiply + carry
    ensures cur <= 0x100 * multiply
    ensures Multiplying(input, multiplied[i - 1 := cur % 0x100], i - 1, multiply, cur / 0x100)
  {
    CarryBound(input[i - 1], multiply, carry);
    MultiplyStep(input, i, multiplied[i..], carry, Pow(0x100, 32 - i), multiply, cur);
    assert multiplied[i - 1 := cur % 0x100][i - 1..] == [cur % 0x100] + multiplied[i..];
  }

  lemma MultiplyArithmetic(x: nat, m: nat, carry: nat, p: nat, v: nat)
    ensures (x * m + carry) * p == x * p * m + carry * p
    ensures (x * p + v) * m == x * p * m + v * m
  {
    assert x * m * p == x * p * m;
  }

  lemma CarryBound(x: byte, m: nat, carry: nat)
    requires carry <= m
    ensures x * m + carry <= 0x100 * m
    ensures (x * m + carry) / 0x100 <= m
  {
    MulLe(x, 0xFF, m);
  }

  /** One byte of a quotient. */
  lemma DivideStep(q: nat, d: nat, r: nat, b: byte, v: nat)
    requires 0 < d && r < d && v == q * d + r
    ensures (r * 0x100 + b) / d < 0x100
    ensures v * 0x100 + b == (q * 0x100 + (r * 0x100 + b) / d) * d + (r * 0x100 + b) % d
  {
    var cur := r * 0x100 + b;
    assert cur == cur / d * d + cur % d;
    if cur / d >= 0x100 {
      MulLe(0x100, cur / d, d);
    }
    assert (q * 0x100 + cur / d) * d == q * 0x100 * d + cur / d * d;
    assert q * d * 0x100 == q * 0x100 * d;
  }

  lemma QuotientIs(multiplied: seq<byte>, result: seq<byte>, d: nat, remainder: int)
    requires Dividing(multiplied, result, |multiplied|, d, remainder)
    ensures result == FixedDigits(0x100, |multiplied|, Quotient(Value(0x100, multiplied), d))
  {
    assert multiplied[..|multiplied|] == multiplied && result[..|result|] == result;
    var product := Value(0x100, multiplied);
    DivModOf(d, Value(0x100, result), remainder);
    ValueBound(0x100, result);
    ValueOfFixedDigits(0x100, |result|, product / d);
    ValueInjective(0x100, result, FixedDigits(0x100, |result|, product / d));
  }

  lemma CarriedOut(v: nat, carry: int, p: nat)
    requires v < p && carry >= 0
    ensures carry > 0 <==> v + carry * p >= p
  {
    if carry > 0 {
      MulLe(1, carry, p);
    }
  }

  /** The product fits exactly when nothing is carried out of the highest byte. */
  lemma ProductFits(multiplied: seq<byte>, carry: nat, product: nat)
    requires |multiplied| == 32 && Value(0x100, multiplied) + carry * Pow(0x100, |multiplied|) == product
    ensures carry > 0 <==> product >= Pow(0x100, |multiplied|)
    ensures carry == 0 ==> multiplied == FixedDigits(0x100, |multiplied|, product)
  {
    ValueBound(0x100, multiplied);
    CarriedOut(Value(0x100, multiplied), carry, Pow(0x100, |multiplied|));
    if carry == 0 {
      ValueOfFixedDigits(0x100, |multiplied|, product);
      ValueInjective(0x100, multiplied, FixedDigits(0x100, |multiplied|, product));
    }
  }

  lemma NextValue(digits: seq<byte>, i: nat)
    requires i < |digits|
    ensures Value(0x100, digits[..i + 1]) == Value(0x100, digits[..i]) * 0x100 + digits[i]
  {
    assert digits[..i + 1][..i] == digits[..i];
  }

  lemma SetDigit(digits: seq<byte>, i: nat, b: byte)
    requires i < |digits|
    ensures Value(0x100, digits[i := b][..i + 1]) == Value(0x100, digits[..i]) * 0x100 + b
  {
    assert digits[i := b][..i + 1][..i] == digits[..i];
  }

  /** A long division after `i` bytes. */
  ghost predicate Dividing(multiplied: seq<byte>, quotient: seq<byte>, i: nat, divide: nat, remainder: int) {
    && i <= |multiplied| == |quotient| && 0 <= remainder < divide
    && Value(0x100, multiplied[..i]) == Value(0x100, quotient[..i]) * divide + remainder
  }

  lemma DigitStep(multiplied: seq<byte>, quotient: seq<byte>, i: nat, divide: u64, remainder: nat, cur: nat)
    requires i < |multiplied| && cur == remainder * 0x100 + multiplied[i]
    requires Dividing(multiplied, quotient, i, divide, remainder)
    ensures 0 <= cur / divide < 0x100
    ensures Dividing(multiplied, quotient[i := cur / divide], i + 1, divide, cur % divide)
  {
    DivideStep(Value(0x100, quotient[..i]), divide, remainder, multiplied[i], Value(0x100, multiplied[..i]));
    NextValue(multiplied, i);
    SetDigit(quotient, i, cur / divide);
  }

  lemma {:induction false} ValuePrefix(digits: seq<byte>, k: nat)
    requires k <= |digits|
    ensures Value(0x100, digits[..|digits| - k]) == ShiftRight8(Value(0x100, digits), k)
  {
    if k == 0 {
      assert digits[..|digits|] == digits;
    } else {
      ValuePrefix(digits, k - 1);
      NextValue(digits, |digits| - k);
      DivModOf(0x100, Value(0x100, digits[..|digits| - k]), digits[|digits| - k]);
    }
  }

  // ---- The 128-bit variant ----

  const TWO_TO_THE_128: nat := 0x1_0000_0000_0000_0000_0000_0000_0000_0000

  method MultiplyWide(input: Bytes32, multiply: u64) returns (multiplied: seq<byte>, carry: nat)
    ensures |multiplied| == 32
    ensures Value(0x100, multiplied) + carry * Pow(0x100, |multiplied|) == Value(0x100, input) * multiply
  {
    multiplied := seq(32, _ => 0);
    carry := 0;
    var i: nat := 32;
    MultiplyingStarts(input, multiplied, multiply);
    while i > 0
      invariant Multiplying(input, multiplied, i, multiply, carry)
    {
      ProductAtMost(input[i - 1], multiply);
      var cur := input[i - 1] * multiply + carry;
      MultiplyDigit(input, multiplied, i, multiply, carry, cur);
      assert cur < TWO_TO_THE_128;
      multiplied := multiplied[i - 1 := cur % 0x100];
      carry := cur / 0x100;
      i := i - 1;
    }
    MultiplyingEnds(input, multiplied, multiply, carry);
  }

  method DivideByte(multiplied: seq<byte>, quotient: seq<byte>, i: nat, divide: u64, remainder: nat)
      returns (next: seq<byte>, rest: nat)
    requires i < |multiplied| && Dividing(multiplied, quotient, i, divide, remainder)
    ensures Dividing(multiplied, next, i + 1, divide, rest)
  {
    var cur := remainder * 0x100 + multiplied[i];
    DigitStep(multiplied, quotient, i, divide, remainder, cur);
    next := quotient[i := cur / divide];
    rest := cur % divide;
  }

  method DivideWide(multiplied: seq<byte>, divide: u64) returns (quotient: seq<byte>)
    requires |multiplied| == 32 && divide > 0
    ensures quotient == FixedDigits(0x100, |multiplied|, Quotient(Value(0x100, multiplied), divide))
  {
    quotient := seq(32, _ => 0);
    var remainder: nat := 0;
    for i := 0 to 32
      invariant Dividing(multiplied, quotient, i, divide, remainder)
    {
      assert remainder * 0x100 + multiplied[i] < TWO_TO_THE_128;
      quotient, remainder := DivideByte(multiplied, quotient, i, divide, remainder);
    }
    QuotientIs(multiplied, quotient, divide, remainder);
  }

  method MultiplyDivide(input: Bytes32, multiply: u64, divide: u64) returns (result: Bytes32, overflowed: bool)
    requires divide > 0
    ensures result == Scaled(input, multiply, divide)
    ensures overflowed <==> Overflows(input, multiply)
  {
    var multiplied, carry := MultiplyWide(input, multiply);
    ProductFits(multiplied, carry, Value(0x100, input) * multiply);
    if carry > 0 {
      return ALL_ONES, true;
    }
    ProductDigits(multiplied, Value(0x100, input) * multiply);
    result := DivideWide(multiplied, divide);
    overflowed := false;
  }

  lemma ProductDigits(multiplied: seq<byte>, product: nat)
    requires |multiplied| == 32 && product < Pow(0x100, |multiplied|)
    requires multiplied == FixedDigits(0x100, |multiplied|, product)
    ensures Value(0x100, multiplied) == product
  {
    ValueOfFixedDigits(0x100, |multiplied|, product);
  }

  // ---- The variants for one compiler without 128-bit integers ----

  /** `_umul128`: the upper and the lower half of a product. */
  function UMul128(a: u64, b: u64): (nat, nat) {
    (a * b / TWO_TO_THE_64, a * b % TWO_TO_THE_64)
  }

  /** One byte of the product with the sum split into two 64-bit halves: nothing is lost, and the upper half
      stays below 256. */
  lemma HalvesStep(cur: nat, product: nat, carry: u64, sumLo: nat, sumHi: nat)
    requires cur == product + carry && product <= 0xFF * (TWO_TO_THE_64 - 1)
    requires sumLo == (product % TWO_TO_THE_64 + carry) % TWO_TO_THE_64
    requires sumHi == product / TWO_TO_THE_64 + (if sumLo < product % TWO_TO_THE_64 then 1 else 0)
    ensures sumHi <= 0xFF && sumLo % 0x100 == cur % 0x100
    ensures sumHi * TWO_TO_THE_56 % TWO_TO_THE_64 + sumLo / 0x100 == cur / 0x100
  {
    assert cur == sumHi * TWO_TO_THE_64 + sumLo;
    assert cur == (sumHi * TWO_TO_THE_56 + sumLo / 0x100) * 0x100 + sumLo % 0x100;
  }

  const TWO_TO_THE_56 := 0x100_0000_0000_0000

  method MultiplyHalves(input: Bytes32, multiply: u64) returns (multiplied: seq<byte>, carry: nat, broke: bool)
    ensures |multiplied| == 32 && !broke
    ensures Value(0x100, multiplied) + carry * Pow(0x100, |multiplied|) == Value(0x100, input) * multiply
  {
    multiplied := seq(32, _ => 0);
    carry := 0;
    broke := false;
    var i: nat := 32;
    MultiplyingStarts(input, multiplied, multiply);
    while i > 0
      invariant Multiplying(input, multiplied, i, multiply, carry) && !broke
    {
      var (hi, lo) := UMul128(input[i - 1], multiply);
      var sumLo := (lo + carry) % TWO_TO_THE_64;
      var sumHi := hi + (if sumLo < lo then 1 else 0);
      ProductAtMost(input[i - 1], multiply);
      ghost var cur := input[i - 1] * multiply + carry;
      MultiplyDigit(input, multiplied, i, multiply, carry, cur);
      HalvesStep(cur, input[i - 1] * multiply, carry, sumLo, sumHi);
      if sumHi > 0xFF {
        assert false;
        broke := true;
        break;
      }
      multiplied := multiplied[i - 1 := sumLo % 0x100];
      carry := sumHi * TWO_TO_THE_56 % TWO_TO_THE_64 + sumLo / 0x100;
      i := i - 1;
    }
    MultiplyingEnds(input, multiplied, multiply, carry);
  }

  /** `_udiv128`, which traps unless the quotient fits 64 bits. */
  function UDiv128(hi: u64, lo: u64, divide: u64): (nat, nat)
    requires hi < divide
  {
    ((hi * TWO_TO_THE_64 + lo) / divide, (hi * TWO_TO_THE_64 + lo) % divide)
  }

  lemma ShiftHalves(remainder: nat, b: byte, divide: u64)
    requires remainder < divide
    ensures remainder / TWO_TO_THE_56 < divide
    ensures remainder / TWO_TO_THE_56 * TWO_TO_THE_64 + (remainder * 0x100 % TWO_TO_THE_64 + b) == remainder * 0x100 + b
    ensures remainder * 0x100 % TWO_TO_THE_64 + b < TWO_TO_THE_64
  {
    var hi, lo := remainder / TWO_TO_THE_56, remainder % TWO_TO_THE_56;
    assert remainder == hi * TWO_TO_THE_56 + lo;
    assert remainder * 0x100 == hi * TWO_TO_THE_64 + lo * 0x100;
    assert lo * 0x100 < TWO_TO_THE_64;
    DivModOf(TWO_TO_THE_64, hi, lo * 0x100);
  }

  /** The 64-bit variant with a 128-by-64 division: no quotient digit exceeds 255. */
  method DivideHalves(multiplied: seq<byte>, divide: u64) returns (quotient: seq<byte>, tooWide: bool)
    requires |multiplied| == 32 && divide > 0
    ensures quotient == FixedDigits(0x100, |multiplied|, Quotient(Value(0x100, multiplied), divide)) && !tooWide
  {
    quotient := seq(32, _ => 0);
    var remainder: nat := 0;
    for i := 0 to 32
      invariant Dividing(multiplied, quotient, i, divide, remainder)
    {
      DigitStep(multiplied, quotient, i, divide, remainder, remainder * 0x100 + multiplied[i]);
      ShiftHalves(remainder, multiplied[i], divide);
      var (q, r) := UDiv128(
        remainder / TWO_TO_THE_56, remainder * 0x100 % TWO_TO_THE_64 + multiplied[i], divide);
      if q > 0xFF {
        assert false;
        return ALL_ONES, true;
      }
      quotient := quotient[i := q];
      remainder := r;
    }
    QuotientIs(multiplied, quotient, divide, remainder);
    tooWide := false;
  }

  method MultiplyDivideHalves(input: Bytes32, multiply: u64, divide: u64) returns (result: Bytes32, overflowed: bool)
    requires divide > 0
    ensures result == Scaled(input, multiply, divide)
    ensures overflowed <==> Overflows(input, multiply)
  {
    var multiplied, carry, broke := MultiplyHalves(input, multiply);
    ProductFits(multiplied, carry, Value(0x100, input) * multiply);
    if broke || carry > 0 {
      return ALL_ONES, true;
    }
    ProductDigits(multiplied, Value(0x100, input) * multiply);
    result, overflowed := DivideHalves(multiplied, divide);
  }

  // ---- The variant without any 128-bit division ----

  predicate WideRemainder(product: nat, divide: nat, k: nat)
    requires divide > 0
  {
    ShiftRight8(product, k) % divide >= TWO_TO_THE_56
  }

  /** Some remainder of the long division needs more than 56 bits, among those before the last `digits` digits. */
  ghost predicate GivesUp(product: nat, divide: nat, digits: nat)
    requires divide > 0
  {
    exists k: nat :: digits < k <= 32 && WideRemainder(product, divide, k)
  }

  lemma GivesUpStep(product: nat, divide: nat, k: nat)
    requires divide > 0 && k <= 32
    ensures GivesUp(product, divide, 0) <== GivesUp(product, divide, k)
    ensures k > 0 ==>
              (GivesUp(product, divide, k - 1) <==> WideRemainder(product, divide, k) || GivesUp(product, divide, k))
  {
  }

  /** A long division whose remainders have fitted 56 bits so far. */
  ghost predicate Narrow(multiplied: seq<byte>, quotient: seq<byte>, i: nat, divide: nat, remainder: int) {
    && |multiplied| == 32 && i <= 32 && Dividing(multiplied, quotient, i, divide, remainder)
    && !GivesUp(Value(0x100, multiplied), divide, 32 - i)
  }

  lemma NarrowStarts(multiplied: seq<byte>, quotient: seq<byte>, divide: u64)
    requires |multiplied| == |quotient| == 32 && divide > 0
    ensures Narrow(multiplied, quotient, 0, divide, 0)
  {
  }

  /** The next remainder either is too wide, or leaves the division narrow. */
  lemma NarrowOrNot(multiplied: seq<byte>, quotient: seq<byte>, i: nat, divide: u64, remainder: nat)
    requires i < 32 && Narrow(multiplied, quotient, i, divide, remainder)
    ensures remainder > (TWO_TO_THE_64 - 1) / 0x100 ==> GivesUp(Value(0x100, multiplied), divide, 0)
    ensures remainder <= (TWO_TO_THE_64 - 1) / 0x100 ==> !GivesUp(Value(0x100, multiplied), divide, 32 - (i + 1))
  {
    RemainderIs(multiplied, 32 - i, quotient, divide, remainder, Value(0x100, multiplied));
  }

  method DivideByteNarrow(multiplied: seq<byte>, quotient: seq<byte>, i: nat, divide: u64, remainder: nat)
      returns (next: seq<byte>, rest: nat)
    requires i < 32 && Narrow(multiplied, quotient, i, divide, remainder)
    requires remainder <= (TWO_TO_THE_64 - 1) / 0x100
    ensures Narrow(multiplied, next, i + 1, divide, rest)
  {
    NarrowOrNot(multiplied, quotient, i, divide, remainder);
    assert remainder * 0x100 + multiplied[i] < TWO_TO_THE_64;
    next, rest := DivideByte(multiplied, quotient, i, divide, remainder);
  }

  /** Stops at the first remainder that needs more than 56 bits. */
  method DivideWhileNarrow(multiplied: seq<byte>, divide: u64) returns (i: nat, result: seq<byte>, remainder: nat)
    requires |multiplied| == 32 && divide > 0
    ensures Narrow(multiplied, result, i, divide, remainder)
    ensures i < 32 ==> GivesUp(Value(0x100, multiplied), divide, 0)
  {
    result := seq(32, _ => 0);
    remainder := 0;
    i := 0;
    NarrowStarts(multiplied, result, divide);
    while i < 32
      invariant i <= 32 && Narrow(multiplied, result, i, divide, remainder)
    {
      NarrowOrNot(multiplied, result, i, divide, remainder);
      if remainder > (TWO_TO_THE_64 - 1) / 0x100 {
        return;
      }
      result, remainder := DivideByteNarrow(multiplied, result, i, divide, remainder);
      i := i + 1;
    }
  }

  method DivideNarrow(multiplied: seq<byte>, divide: u64) returns (quotient: Option<seq<byte>>)
    requires |multiplied| == 32 && divide > 0
    ensures quotient == if GivesUp(Value(0x100, multiplied), divide, 0) then None
                        else Some(FixedDigits(0x100, |multiplied|, Quotient(Value(0x100, multiplied), divide)))
  {
    var i, result, remainder := DivideWhileNarrow(multiplied, divide);
    if i < 32 {
      return None;
    }
    QuotientIs(multiplied, result, divide, remainder);
    quotient := Some(result);
  }

  lemma RemainderIs(digits: seq<byte>, k: nat, quotient: seq<byte>, divide: nat, remainder: nat, value: nat)
    requires k <= |digits| && Dividing(digits, quotient, |digits| - k, divide, remainder)
    requires 0 < k <= 32 && value == Value(0x100, digits)
    ensures if remainder > (TWO_TO_THE_64 - 1) / 0x100 then GivesUp(value, divide, 0)
            else GivesUp(value, divide, k - 1) <==> GivesUp(value, divide, k)
  {
    GivesUpStep(value, divide, k);
    GivesUpStep(value, divide, k - 1);
    ValuePrefix(digits, k);
    DivModOf(divide, Value(0x100, quotient[..|digits| - k]), remainder);
  }

  /** What the narrow variant returns: saturated also when it gives up. */
  ghost function ScaledNarrow(input: Bytes32, multiply: u64, divide: u64): (Bytes32, bool)
    requires divide > 0
  {
    if Overflows(input, multiply) || GivesUp(Value(0x100, input) * multiply, divide, 0) then (ALL_ONES, true)
    else (Scaled(input, multiply, divide), false)
  }

  method MultiplyDivideNarrow(input: Bytes32, multiply: u64, divide: u64) returns (result: Bytes32, overflowed: bool)
    requires divide > 0
    ensures (result, overflowed) == ScaledNarrow(input, multiply, divide)
  {
    var multiplied, carry, broke := MultiplyHalves(input, multiply);
    ProductFits(multiplied, carry, Value(0x100, input) * multiply);
    if broke || carry > 0 {
      return ALL_ONES, true;
    }
    ProductDigits(multiplied, Value(0x100, input) * multiply);
    var quotient := DivideNarrow(multiplied, divide);
    if quotient.None? {
      return ALL_ONES, true;
    }
    result, overflowed := quotient.value, false;
  }

  /** The narrow variant agrees with the others on every input exactly for divisors of at most 56 bits. */
  lemma NarrowAgrees(divide: u64)
    requires divide > 0
    ensures divide <= TWO_TO_THE_56
       <==> forall input: Bytes32, multiply: u64 ::
              ScaledNarrow(input, multiply, divide) == (Scaled(input, multiply, divide), Overflows(input, multiply))
  {
    if divide > TWO_TO_THE_56 {
      var n: nat :| n == TWO_TO_THE_64;
      NarrowGivesUp(FixedDigits(0x100, |ALL_ONES|, n), n, divide);
    } else {
      forall input: Bytes32, multiply: u64
        ensures ScaledNarrow(input, multiply, divide)
             == (Scaled(input, multiply, divide), Overflows(input, multiply))
      {
        assert !GivesUp(Value(0x100, input) * multiply, divide, 0);
      }
    }
  }

  /** 2^64 is the number it gives up on. */
  lemma NarrowGivesUp(input: Bytes32, n: nat, divide: u64)
    requires divide > TWO_TO_THE_56 && n == TWO_TO_THE_64 && input == FixedDigits(0x100, |input|, n)
    ensures ScaledNarrow(input, 1, divide).1 && !Overflows(input, 1)
  {
    assert Value(0x100, input) * 1 == n && !Overflows(input, 1) by {
      PowMonotone(0x100, 9, |input|);
      ValueOfFixedDigits(0x100, |input|, n);
    }
    GivesUpOn(n, divide);
  }

  lemma GivesUpOn(n: nat, divide: u64)
    requires divide > TWO_TO_THE_56 && n == TWO_TO_THE_64
    ensures GivesUp(n, divide, 0)
  {
    WideAt(n, divide, 1);
  }

  lemma WideAt(n: nat, divide: u64, k: nat)
    requires divide > TWO_TO_THE_56 && n == TWO_TO_THE_64 && k == 1
    ensures WideRemainder(n, divide, k)
  {
    assert ShiftRight8(n, k) == TWO_TO_THE_56 by {
      assert ShiftRight8(n, k - 1) == n;
    }
    DivModOf(divide, 0, TWO_TO_THE_56);
  }

  // ---- What scaling means ----

  /** The number that a scaled target stands for. */
  function ScaledNumber(x: nat, m: nat, d: nat, limit: nat): nat
    requires d > 0 && limit > 0
  {
    if x * m < limit then Quotient(x * m, d) else limit - 1
  }

  lemma ScaledValue(input: Bytes32, multiply: u64, divide: u64, limit: nat)
    requires divide > 0 && limit > 0 && limit == Pow(0x100, |input|)
    ensures Value(0x100, Scaled(input, multiply, divide)) == ScaledNumber(Value(0x100, input), multiply, divide, limit)
  {
    var product := Value(0x100, input) * multiply;
    if product < limit {
      QuotientAtMost(product, divide);
      ValueOfFixedDigits(0x100, |input|, product / divide);
    } else {
      AllOnes(ALL_ONES);
    }
  }

  lemma QuotientAtMost(n: nat, d: nat)
    requires d > 0
    ensures Quotient(n, d) <= n
  {
    assert n == n / d * d + n % d;
    MulLe(1, d, n / d);
  }

  lemma {:induction false} AllOnes(digits: seq<byte>)
    requires forall i :: 0 <= i < |digits| ==> digits[i] == 0xFF
    ensures Value(0x100, digits) == Pow(0x100, |digits|) - 1
  {
    if digits != [] {
      AllOnes(digits[..|digits| - 1]);
    }
  }

  lemma QuotientMonotone(m: nat, n: nat, d: nat)
    requires d > 0 && m <= n
    ensures Quotient(m, d) <= Quotient(n, d)
  {
    assert m == m / d * d + m % d && n == n / d * d + n % d;
    if m / d > n / d {
      MulLe(n / d + 1, m / d, d);
    }
  }

  lemma ScaledNumberMonotone(x: nat, m: nat, y: nat, n: nat, d: nat, limit: nat)
    requires d > 0 && limit > 0 && x <= y && m <= n
    ensures ScaledNumber(x, m, d, limit) <= ScaledNumber(y, n, d, limit)
  {
    MulLe(x, y, m);
    MulLe(m, n, y);
    if y * n < limit {
      QuotientMonotone(x * m, y * n, d);
    } else if x * m < limit {
      QuotientAtMost(x * m, d);
    }
  }

  lemma ScaledNumberAtLeast(x: nat, m: nat, d: nat, limit: nat)
    requires d > 0 && x < limit && d <= m
    ensures x <= ScaledNumber(x, m, d, limit)
  {
    MulLe(d, m, x);
    QuotientMonotone(x * d, x * m, d);
    DivModOf(d, x, 0);
  }

  /** An easier target and a larger factor never give a harder target. */
  lemma ScaledMonotone(a: Bytes32, m: u64, b: Bytes32, n: u64, divide: u64)
    requires divide > 0 && Value(0x100, a) <= Value(0x100, b) && m <= n
    ensures Value(0x100, Scaled(a, m, divide)) <= Value(0x100, Scaled(b, n, divide))
  {
    var limit := Pow(0x100, |a|);
    PowPositive(0x100, |a|);
    ScaledValue(a, m, divide, limit);
    ScaledValue(b, n, divide, limit);
    ScaledNumberMonotone(Value(0x100, a), m, Value(0x100, b), n, divide, limit);
  }

  lemma ScaledAtLeast(a: Bytes32, m: u64, divide: u64)
    requires 0 < divide <= m
    ensures Value(0x100, a) <= Value(0x100, Scaled(a, m, divide))
  {
    var limit := Pow(0x100, |a|);
    PowPositive(0x100, |a|);
    ValueBound(0x100, a);
    ScaledValue(a, m, divide, limit);
    ScaledNumberAtLeast(Value(0x100, a), m, divide, limit);
  }

  /** A block's target, given the scale in thousandths; never harder than the difficulty when the scale is at
      least one. */
  method BlockDifficultyTarget(difficulty: Bytes32, scaled: u64) returns (target: Bytes32)
    ensures target == Scaled(difficulty, scaled, 1000)
    ensures scaled >= 1000 ==> Value(0x100, difficulty) <= Value(0x100, target)
  {
    var result, overflowed := MultiplyDivide(difficulty, scaled, 1000);
    if scaled >= 1000 {
      ScaledAtLeast(difficulty, scaled, 1000);
    }
    target := if overflowed then ALL_ONES else result;
  }

  // ---- Comparing a hash with a target ----

  function LoadBe64(d: seq<byte>): (r: nat)
    requires |d| == 8
  {
    0x100_0000_0000_0000 * (d[0] as int) + 0x1_0000_0000_0000 * (d[1] as int) + 0x100_0000_0000 * (d[2] as int)
    + 0x1_0000_0000 * (d[3] as int)
    + 0x100_0000 * (d[4] as int) + 0x1_0000 * (d[5] as int) + 0x100 * (d[6] as int) + (d[7] as int)
  }

  lemma LoadBe64Value(d: seq<byte>)
    requires |d| == 8
    ensures LoadBe64(d) == Value(0x100, d)
  {
    assert d[..0] == [];
    NextValue(d, 0);
    NextValue(d, 1);
    NextValue(d, 2);
    NextValue(d, 3);
    NextValue(d, 4);
    NextValue(d, 5);
    NextValue(d, 6);
    NextValue(d, 7);
    assert d[..8] == d;
  }

  lemma {:induction false} PrefixDecides(a: seq<byte>, b: seq<byte>, j: nat)
    requires j <= |a| == |b| && Value(0x100, a[..j]) < Value(0x100, b[..j])
    ensures Value(0x100, a) < Value(0x100, b)
    decreases |a| - j
  {
    if j == |a| {
      assert a[..j] == a && b[..j] == b;
    } else {
      NextValue(a, j);
      NextValue(b, j);
      PrefixDecides(a, b, j + 1);
    }
  }

  lemma HeadKeepsOrder(head: seq<byte>, x: seq<byte>, y: seq<byte>, a: seq<byte>, b: seq<byte>)
    requires |x| == |y| && Value(0x100, x) < Value(0x100, y) && a == head + x && b == head + y
    ensures Value(0x100, a) < Value(0x100, b)
  {
    ValueConcat(0x100, head, x);
    ValueConcat(0x100, head, y);
    var shifted := Value(0x100, head) * Pow(0x100, |x|);
    assert Value(0x100, a) == shifted + Value(0x100, x);
    assert Value(0x100, b) == shifted + Value(0x100, y);
  }

  /** The first chunk that differs decides. */
  lemma ChunkDecides(a: seq<byte>, b: seq<byte>, i: nat, j: nat)
    requires i <= j <= |a| == |b| && a[..i] == b[..i]
    requires Value(0x100, a[i..j]) < Value(0x100, b[i..j])
    ensures Value(0x100, a) < Value(0x100, b)
  {
    assert a[..j] == a[..i] + a[i..j] && b[..j] == b[..i] + b[i..j];
    HeadKeepsOrder(a[..i], a[i..j], b[i..j], a[..j], b[..j]);
    PrefixDecides(a, b, j);
  }

  lemma ChunkAgrees(a: seq<byte>, b: seq<byte>, i: nat, j: nat)
    requires i <= j <= |a| == |b| && a[..i] == b[..i]
    requires Value(0x100, a[i..j]) == Value(0x100, b[i..j])
    ensures a[..j] == b[..j]
  {
    ValueInjective(0x100, a[i..j], b[i..j]);
    assert a[..j] == a[..i] + a[i..j] && b[..j] == b[..i] + b[i..j];
  }

  predicate Meets(hash: Bytes32, target: Bytes32) {
    Value(0x100, hash) <= Value(0x100, target)
  }

  method HashMeetsTarget(hash: Bytes32, target: Bytes32) returns (meets: bool)
    ensures meets <==> Meets(hash, target)
  {
    var i := 0;
    while i < 32
      invariant 0 <= i <= 32 && i % 8 == 0 && hash[..i] == target[..i]
    {
      var h := LoadBe64(hash[i..i + 8]);
      var t := LoadBe64(target[i..i + 8]);
      LoadBe64Value(hash[i..i + 8]);
      LoadBe64Value(target[i..i + 8]);
      if h < t {
        ChunkDecides(hash, target, i, i + 8);
        return true;
      }
      if h > t {
        ChunkDecides(target, hash, i, i + 8);
        return false;
      }
      ChunkAgrees(hash, target, i, i + 8);
      i := i + 8;
    }
    assert hash[..32] == hash && target[..32] == target;
    meets := true;
  }

  function LoadLe64(d: seq<byte>): (r: nat)
    requires |d| >= 8
  {
    0x100_0000_0000_0000 * (d[7] as int) + 0x1_0000_0000_0000 * (d[6] as int) + 0x100_0000_0000 * (d[5] as int)
    + 0x1_0000_0000 * (d[4] as int)
    + 0x100_0000 * (d[3] as int) + 0x1_0000 * (d[2] as int) + 0x100 * (d[1] as int) + (d[0] as int)
  }

  /** The comparison made for a pool's job: with its 256-bit target if it has one, and otherwise of the first
      eight bytes, least significant first. */
  method StratumHashMeetsTarget(hash: Bytes32, targetBe: Option<Bytes32>, targetLe: u64) returns (meets: bool)
    ensures targetBe.Some? ==> (meets <==> Meets(hash, targetBe.value))
    ensures targetBe.None? ==> (meets <==> LeValue(hash[..8]) <= targetLe)
  {
    if targetBe.Some? {
      for i := 0 to 32
        invariant hash[..i] == targetBe.value[..i]
      {
        var hv, tv := hash[i], targetBe.value[i];
        ByteValue(hash, i);
        ByteValue(targetBe.value, i);
        if hv < tv {
          ChunkDecides(hash, targetBe.value, i, i + 1);
          return true;
        }
        if hv > tv {
          ChunkDecides(targetBe.value, hash, i, i + 1);
          return false;
        }
        ChunkAgrees(hash, targetBe.value, i, i + 1);
      }
      assert hash[..32] == hash && targetBe.value[..32] == targetBe.value;
      return true;
    }
    LoadLe64Value(hash[..8]);
    meets := LoadLe64(hash) <= targetLe;
  }

  lemma ByteValue(s: seq<byte>, i: nat)
    requires i < |s|
    ensures Value(0x100, s[i..i + 1]) == s[i]
  {
    assert s[i..i + 1] == [s[i]];
    ValueSingle(0x100, s[i]);
  }

  lemma LoadLe64Value(d: seq<byte>)
    requires |d| == 8
    ensures LoadLe64(d) == LeValue(d)
  {
    assert LeValue(d[4..]) == 0x100_0000 * d[7] as int + 0x1_0000 * d[6] as int + 0x100 * d[5] as int + d[4] as int by {
      LeStep(d, 4);
      LeStep(d, 5);
      LeStep(d, 6);
      LeStep(d, 7);
      assert d[8..] == [];
    }
    LeStep(d, 0);
    LeStep(d, 1);
    LeStep(d, 2);
    LeStep(d, 3);
    assert d[0..] == d;
  }

  lemma LeStep(d: seq<byte>, i: nat)
    requires i < |d|
    ensures LeValue(d[i..]) == d[i] + 0x100 * LeValue(d[i + 1..])
  {
    assert d[i..][1..] == d[i + 1..];
  }
}
