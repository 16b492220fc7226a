/** Base36 text of byte arrays: wallet addresses, hashes and signatures. */
module Base36 {
  import opened Machine
  import opened Radix

  datatype Base36Error = EmptyText | InvalidCharacter | TooLarge

  // ---- The meaning of base36 text ----

  function DigitChar(d: nat): char
    requires d < 36
  {
    if d < 10 then ('0' as int + d) as char else ('a' as int + (d - 10)) as char
  }

  /** The digit a character stands for, either case; -1 for any other character. */
  function DigitOf(c: char): int {
    if '0' <= c <= '9' then c as int - '0' as int
    else if 'a' <= c <= 'z' then 10 + (c as int - 'a' as int)
    else if 'A' <= c <= 'Z' then 10 + (c as int - 'A' as int)
    else -1
  }

  predicate ValidText(text: string) {
    forall i :: 0 <= i < |text| ==> 0 <= DigitOf(text[i])
  }

  function DigitsOf(text: string): (ds: seq<nat>)
    requires ValidText(text)
    ensures |ds| == |text|
    ensures forall i :: 0 <= i < |ds| ==> ds[i] == DigitOf(text[i]) < 36
  {
    if text == "" then [] else DigitsOf(text[..|text| - 1]) + [DigitOf(text[|text| - 1])]
  }

  function CharsOf(ds: seq<nat>): (text: string)
    requires Digits(36, ds)
    ensures |text| == |ds|
    ensures forall i :: 0 <= i < |ds| ==> text[i] == DigitChar(ds[i])
  {
    if ds == [] then "" else CharsOf(ds[..|ds| - 1]) + [DigitChar(ds[|ds| - 1])]
  }

  /** The base36 digits of `n` without leading zeros. */
  function Numeral(n: nat): (ds: seq<nat>)
    ensures Digits(36, ds)
    ensures ds != [] ==> ds[0] != 0
    ensures ds == [] <==> n == 0
  {
    if n == 0 then [] else Numeral(n / 36) + [n % 36]
  }

  function Text(n: nat): string {
    if n == 0 then "0" else CharsOf(Numeral(n))
  }

  function EncodeText(data: seq<byte>): string {
    Text(Value(0x100, data))
  }

  function DecodeText(text: string, len: nat): Result<seq<byte>, Base36Error> {
    if text == "" then Err(EmptyText)
    else if !ValidText(text) then Err(InvalidCharacter)
    else
      var n := Value(36, DigitsOf(text));
      if n < Pow(0x100, len) then Ok(FixedDigits(0x100, len, n)) else Err(TooLarge)
  }

  /** Lower case and no leading zeros. */
  function Canonical(text: string): string
    requires text != "" && ValidText(text)
  {
    if DigitOf(text[0]) == 0 && |text| > 1 then Canonical(text[1..])
    else CharsOf(DigitsOf(text))
  }

  // ---- Round trips ----

  lemma {:induction false} ValueOfNumeral(n: nat)
    ensures Value(36, Numeral(n)) == n
  {
    if n != 0 {
      ValueOfNumeral(n / 36);
      var ds := Numeral(n);
      assert ds[..|ds| - 1] == Numeral(n / 36);
    }
  }

  lemma {:induction false} NumeralOfValue(ds: seq<nat>)
    requires Digits(36, ds)
    requires ds != [] ==> ds[0] != 0
    ensures Numeral(Value(36, ds)) == ds
  {
    if ds != [] {
      var k := |ds| - 1;
      NumeralOfValue(ds[..k]);
      DivModOf(36, Value(36, ds[..k]), ds[k]);
      ValueLeading(36, ds);
      PowPositive(36, k);
      assert ds == ds[..k] + [ds[k]];
    }
  }

  lemma DigitsOfChars(ds: seq<nat>)
    requires Digits(36, ds)
    ensures ValidText(CharsOf(ds)) && DigitsOf(CharsOf(ds)) == ds
  {
    var text := CharsOf(ds);
    forall i | 0 <= i < |ds|
      ensures DigitOf(text[i]) == ds[i]
    {
      DigitOfChar(ds[i]);
    }
    assert ValidText(text);
    assert DigitsOf(text) == ds;
  }

  lemma DigitOfChar(d: nat)
    requires d < 36
    ensures DigitOf(DigitChar(d)) == d
  {
  }

  const DIGITS_0 := "0123456789abcdefgh"
  const DIGITS_18 := "ijklmnopqrstuvwxyz"

  /** The digits are those of the table, in its order. */
  lemma DigitsAsListed(d: nat)
    requires d < 18
    ensures DigitChar(d) == DIGITS_0[d] && DigitChar(d + 18) == DIGITS_18[d]
  {
  }

  lemma TextIsValid(n: nat)
    ensures Text(n) != "" && ValidText(Text(n))
    ensures Value(36, DigitsOf(Text(n))) == n
  {
    if n == 0 {
      assert DigitsOf("0") == [0];
      assert [0][..0] == [];
    } else {
      ValueOfNumeral(n);
      DigitsOfChars(Numeral(n));
    }
  }

  /** Decoding the text of any byte array gives the array back. */
  lemma DecodeAfterEncode(data: seq<byte>)
    ensures DecodeText(EncodeText(data), |data|) == Ok(data)
  {
    var n := Value(0x100, data);
    TextIsValid(n);
    ValueBound(0x100, data);
    ValueOfFixedDigits(0x100, |data|, n);
    ValueInjective(0x100, data, FixedDigits(0x100, |data|, n));
  }

  lemma {:induction false} TextOfValue(text: string)
    requires text != "" && ValidText(text)
    ensures Text(Value(36, DigitsOf(text))) == Canonical(text)
  {
    var ds := DigitsOf(text);
    if ds[0] == 0 && |text| > 1 {
      TextOfValue(text[1..]);
      assert DigitsOf(text[1..]) == ds[1..];
      ValueDropZero(36, ds);
    } else if ds[0] == 0 {
      assert ds == [0] && [0][..0] == [];
      assert CharsOf(ds) == [DigitChar(0)];
    } else {
      NumeralOfValue(ds);
    }
  }

  /** Encoding what a text decodes to gives the text back, lower-cased and without leading zeros. */
  lemma EncodeAfterDecode(text: string, len: nat)
    requires DecodeText(text, len).Ok?
    ensures EncodeText(DecodeText(text, len).value) == Canonical(text)
  {
    var n := Value(36, DigitsOf(text));
    ValueOfFixedDigits(0x100, len, n);
    TextOfValue(text);
  }

  /** Base36 text names arrays of one length uniquely. */
  lemma EncodeInjective(a: seq<byte>, b: seq<byte>)
    requires |a| == |b| && EncodeText(a) == EncodeText(b)
    ensures a == b
  {
    DecodeAfterEncode(a);
    DecodeAfterEncode(b);
  }

  // ---- The loops ----

  function Reversed(s: string): (r: string)
    ensures |r| == |s|
  {
    if s == "" then "" else Reversed(s[1..]) + [s[0]]
  }

  lemma {:induction false} ReversedAppend(s: string, c: char)
    ensures Reversed(s + [c]) == [c] + Reversed(s)
  {
    if s != "" {
      ReversedAppend(s[1..], c);
      assert (s + [c])[1..] == s[1..] + [c];
    }
  }

  lemma CharsOfConcat(a: seq<nat>, d: nat)
    requires Digits(36, a) && d < 36
    ensures CharsOf(a + [d]) == CharsOf(a) + [DigitChar(d)]
  {
    assert (a + [d])[..|a|] == a;
  }

  method TrimLeadingZeros(data: seq<byte>) returns (value: seq<byte>)
    ensures Value(0x100, value) == Value(0x100, data)
    ensures value != [] ==> value[0] != 0
  {
    value := data;
    while value != [] && value[0] == 0
      invariant Value(0x100, value) == Value(0x100, data)
    {
      ValueDropZero(0x100, value);
      value := value[1..];
    }
  }

  /** One pass of the long division of `value` by 36. */
  method DivideBy36(value: seq<byte>) returns (quotient: seq<byte>, remainder: nat)
    ensures remainder < 36
    ensures Value(0x100, value) == Value(0x100, quotient) * 36 + remainder
    ensures quotient != [] ==> quotient[0] != 0
  {
    quotient, remainder := [], 0;
    for i := 0 to |value|
      invariant remainder < 36
      invariant Value(0x100, value[..i]) == Value(0x100, quotient) * 36 + remainder
      invariant quotient != [] ==> quotient[0] != 0
    {
      var acc := remainder * 0x100 + value[i];
      var q: byte := acc / 36;
      remainder := acc % 36;
      assert value[..i + 1][..i] == value[..i];
      assert (quotient + [q])[..|quotient|] == quotient;
      if quotient != [] || q != 0 {
        quotient := quotient + [q];
      }
    }
    assert value[..|value|] == value;
  }

  /** Taking the last digit off a number moves it in front of the digits already taken. */
  lemma TakeDigit(q: nat, remainder: nat, out: string)
    requires remainder < 36 && 0 < q * 36 + remainder
    ensures CharsOf(Numeral(q * 36 + remainder)) + Reversed(out)
         == CharsOf(Numeral(q)) + Reversed(out + [DigitChar(remainder)])
  {
    DivModOf(36, q, remainder);
    CharsOfConcat(Numeral(q), remainder);
    ReversedAppend(out, DigitChar(remainder));
  }

  lemma NonZeroValue(value: seq<byte>)
    requires value != [] && value[0] != 0
    ensures 0 < Value(0x100, value)
  {
    ValueLeading(0x100, value);
    PowPositive(0x100, |value| - 1);
  }

  method EncodeBase36(data: seq<byte>) returns (text: string)
    ensures text == EncodeText(data)
  {
    ghost var n := Value(0x100, data);
    var value := TrimLeadingZeros(data);
    if value == [] {
      return "0";
    }
    NonZeroValue(value);
    var out := "";
    while value != []
      invariant value != [] ==> value[0] != 0
      invariant CharsOf(Numeral(n)) == CharsOf(Numeral(Value(0x100, value))) + Reversed(out)
      decreases Value(0x100, value)
    {
      NonZeroValue(value);
      var quotient, remainder := DivideBy36(value);
      TakeDigit(Value(0x100, quotient), remainder, out);
      out := out + [DigitChar(remainder)];
      value := quotient;
    }
    text := Reversed(out);
  }

  /** `value * 36 + digit`, in place and with the carry inserted in front. */
  method MultiplyAdd36(input: seq<byte>, digit: nat) returns (value: seq<byte>)
    requires digit < 36
    ensures Value(0x100, value) == Value(0x100, input) * 36 + digit
  {
    value := input;
    var carry: nat := digit;
    var i := |value|;
    assert value[i..] == [];
    while i > 0
      invariant 0 <= i <= |value| == |input|
      invariant carry < 36
      invariant value[..i] == input[..i]
      invariant Value(0x100, value[i..]) + carry * Pow(0x100, |value| - i)
             == Value(0x100, input[i..]) * 36 + digit
    {
      var acc := value[i - 1] * 36 + carry;
      StepValue(input, i, value[i..], carry, Pow(0x100, |value| - i), digit, acc);
      ghost var high := value[i..];
      value := value[i - 1 := acc % 0x100];
      assert value[i - 1..] == [acc % 0x100] + high;
      carry := acc / 0x100;
      i := i - 1;
    }
    assert value[0..] == value && input[0..] == input;
    while carry > 0
      invariant Value(0x100, value) + carry * Pow(0x100, |value|)
             == Value(0x100, input) * 36 + digit
    {
      ValueCons(0x100, carry % 0x100, value);
      SplitByte(carry, Pow(0x100, |value|));
      value := [carry % 0x100] + value;
      carry := carry / 0x100;
    }
  }

  lemma StepValue(input: seq<byte>, i: nat, high: seq<byte>, carry: nat, p: nat, digit: nat, acc: nat)
    requires 0 < i <= |input| && |high| == |input| - i && p == Pow(0x100, |input| - i)
    requires acc == input[i - 1] * 36 + carry
    requires Value(0x100, high) + carry * p == Value(0x100, input[i..]) * 36 + digit
    ensures Value(0x100, [acc % 0x100] + high) + acc / 0x100 * (0x100 * p) == Value(0x100, input[i - 1..]) * 36 + digit
  {
    assert Value(0x100, [acc % 0x100] + high) == acc % 0x100 * p + Value(0x100, high) by {
      ValueCons(0x100, acc % 0x100, high);
    }
    assert Value(0x100, input[i - 1..]) == input[i - 1] * p + Value(0x100, input[i..]) by {
      assert input[i - 1..] == [input[i - 1]] + input[i..];
      ValueCons(0x100, input[i - 1], input[i..]);
    }
    StepArithmetic(input[i - 1], carry, p);
    SplitByte(acc, p);
  }

  lemma StepArithmetic(x: nat, carry: nat, p: nat)
    ensures (x * 36 + carry) * p == x * p * 36 + carry * p
  {
  }

  lemma NextDigit(text: string, k: nat)
    requires k < |text| && ValidText(text[..k]) && 0 <= DigitOf(text[k])
    ensures ValidText(text[..k + 1])
    ensures Value(36, DigitsOf(text[..k + 1])) == Value(36, DigitsOf(text[..k])) * 36 + DigitOf(text[k])
  {
    var t := text[..k + 1];
    assert t[..k] == text[..k] && t[k] == text[k];
    assert DigitsOf(t) == DigitsOf(text[..k]) + [DigitOf(text[k])];
    assert DigitsOf(t)[..k] == DigitsOf(text[..k]);
  }

  method ReadBase36(text: string) returns (r: Option<seq<byte>>)
    ensures r.Some? <==> ValidText(text)
    ensures r.Some? ==> Value(0x100, r.value) == Value(36, DigitsOf(text))
  {
    var value: seq<byte> := [0];
    ValueSingle(0x100, 0);
    for k := 0 to |text|
      invariant ValidText(text[..k])
      invariant Value(0x100, value) == Value(36, DigitsOf(text[..k]))
    {
      var digit := DigitOf(text[k]);
      if digit < 0 {
        return None;
      }
      value := MultiplyAdd36(value, digit);
      NextDigit(text, k);
    }
    assert text[..|text|] == text;
    r := Some(value);
  }

  lemma ShortFits(value: seq<byte>, len: nat)
    requires |value| <= len
    ensures Value(0x100, value) < Pow(0x100, len)
  {
    ValueBound(0x100, value);
    PowMonotone(0x100, |value|, len);
  }

  lemma PaddedValue(value: seq<byte>, zeros: seq<byte>)
    requires forall i :: 0 <= i < |zeros| ==> zeros[i] == 0
    ensures Value(0x100, zeros + value) == Value(0x100, value)
  {
    ZerosValue(zeros);
    ValueConcat(0x100, zeros, value);
  }

  lemma PadToLength(value: seq<byte>, zeros: seq<byte>, len: nat)
    requires |zeros| + |value| == len
    requires forall i :: 0 <= i < |zeros| ==> zeros[i] == 0
    ensures zeros + value == FixedDigits(0x100, len, Value(0x100, value))
  {
    PaddedValue(value, zeros);
    ShortFits(value, len);
    ValueOfFixedDigits(0x100, len, Value(0x100, value));
    ValueInjective(0x100, zeros + value, FixedDigits(0x100, len, Value(0x100, value)));
  }

  lemma TooLong(value: seq<byte>, len: nat)
    requires |value| > len && value[0] != 0
    ensures Pow(0x100, len) <= Value(0x100, value)
  {
    ValueLeading(0x100, value);
    PowMonotone(0x100, len, |value| - 1);
  }

  /** Decoding succeeds exactly on non-empty digit strings whose number fits `len` bytes. */
  method DecodeBase36(text: string, len: nat) returns (r: Result<seq<byte>, Base36Error>)
    ensures r == DecodeText(text, len)
    ensures r.Ok? ==> |r.value| == len && Value(0x100, r.value) == Value(36, DigitsOf(text))
  {
    if text == "" {
      return Err(EmptyText);
    }
    var read := ReadBase36(text);
    if read.None? {
      return Err(InvalidCharacter);
    }
    var value := TrimLeadingZeros(read.value);
    if |value| > len {
      TooLong(value, len);
      return Err(TooLarge);
    }
    var zeros: seq<byte> := seq(len - |value|, _ => 0);
    ShortFits(value, len);
    PadToLength(value, zeros, len);
    PaddedValue(value, zeros);
    r := Ok(zeros + value);
  }

  lemma ZerosValue(zeros: seq<byte>)
    requires forall i :: 0 <= i < |zeros| ==> zeros[i] == 0
    ensures Value(0x100, zeros) == 0
  {
    if zeros != [] {
      ZerosValue(zeros[..|zeros| - 1]);
    }
  }
}
