/** Numbers as they are printed, and what they are read back as. */
module NumberRoundTrip {
  import opened Machine
  import opened Radix
  import opened Doubles
  import opened Json

  // ---- Digits ----

  ghost predicate AllDigits(s: string) {
    forall i :: 0 <= i < |s| ==> IsDigit(s[i])
  }

  lemma {:induction false} LiteralAppend(a: string, b: string)
    requires AllDigits(b)
    ensures LiteralDigits(a + b) == LiteralDigits(a) * Pow(10, |b|) + LiteralDigits(b)
  {
    if b == "" {
      assert a + b == a;
    } else {
      var k := |b| - 1;
      LiteralAppend(a, b[..k]);
      assert (a + b)[..|a + b| - 1] == a + b[..k];
      MulShift(LiteralDigits(a), Pow(10, k), LiteralDigits(b[..k]), 10);
    }
  }

  /** What is no digit does not count. */
  lemma LiteralSkips(a: string, c: char, b: string)
    requires !IsDigit(c) && AllDigits(b)
    ensures LiteralDigits(a + [c] + b) == LiteralDigits(a + b)
  {
    assert (a + [c])[..|a|] == a;
    LiteralAppend(a + [c], b);
    LiteralAppend(a, b);
  }

  lemma {:induction false} ZerosAfter(a: string, z: nat)
    ensures LiteralDigits(a + Zeros(z)) == Times(LiteralDigits(a), 10, z)
  {
    if z == 0 {
      assert a + Zeros(z) == a;
    } else {
      assert (a + Zeros(z))[..|a| + z - 1] == a + Zeros(z - 1);
      ZerosAfter(a, z - 1);
      TimesScales(LiteralDigits(a), 10, 10, z - 1);
      assert LiteralDigits(a) * 10 == 10 * LiteralDigits(a);
    }
  }

  lemma {:induction false} ZerosBefore(z: nat, s: string)
    requires AllDigits(s)
    ensures LiteralDigits(Zeros(z) + s) == LiteralDigits(s)
  {
    LiteralAppend(Zeros(z), s);
    ZerosAfter("", z);
    assert "" + Zeros(z) == Zeros(z);
    TimesZero(10, z);
  }

  lemma {:induction false} TimesZero(base: nat, z: nat)
    ensures Times(0, base, z) == 0
  {
    if z > 0 {
      TimesZero(base, z - 1);
    }
  }

  lemma {:induction false} DropZerosOf(s: string)
    ensures s == DropZeros(s) + Zeros(|s| - |DropZeros(s)|)
  {
    if s != "" && s[|s| - 1] == '0' {
      DropZerosOf(s[..|s| - 1]);
      assert s == s[..|s| - 1] + "0";
    }
  }

  lemma {:induction false} NothingLeft(s: string)
    requires AllDigits(s) && LiteralDigits(s) == 0
    ensures DropZeros(s) == ""
  {
    if s != "" {
      NothingLeft(s[..|s| - 1]);
    }
  }

  lemma {:induction false} DigitsTextIs(n: nat, len: nat)
    requires n < Pow(10, len)
    ensures AllDigits(DigitsText(n, len)) && LiteralDigits(DigitsText(n, len)) == n
    ensures len > 0 && n >= Pow(10, len - 1) ==> DigitsText(n, len)[0] != '0'
  {
    if len > 0 {
      var s := DigitsText(n, len);
      QuotientBelow(10, n, Pow(10, len - 1));
      DigitsTextIs(n / 10, len - 1);
      assert s[..len - 1] == DigitsText(n / 10, len - 1);
      if len > 1 && n >= Pow(10, len - 1) {
        assert n / 10 >= Pow(10, len - 2);
      }
    }
  }

  lemma {:induction false} DigitsTextPrefix(n: nat, len: nat, k: nat)
    requires k <= len
    ensures DigitsText(n, len)[..k] == DigitsText(Over(n, 10, len - k), k)
    decreases len - k
  {
    if k < len {
      DigitsTextPrefix(n / 10, len - 1, k);
      assert DigitsText(n, len)[..len - 1] == DigitsText(n / 10, len - 1);
      assert DigitsText(n, len)[..k] == DigitsText(n, len)[..len - 1][..k];
    }
  }

  lemma {:induction false} NatTextIs(n: nat)
    ensures AllDigits(NatText(n)) && LiteralDigits(NatText(n)) == n && NatText(n) != ""
    ensures NatText(n)[0] == '0' ==> n == 0 && NatText(n) == "0"
  {
    var s := NatText(n);
    if n < 10 {
      assert s[..0] == "";
    } else {
      NatTextIs(n / 10);
      assert s[..|s| - 1] == NatText(n / 10);
    }
  }

  lemma {:induction false} DigitsValueIs(s: string)
    requires AllDigits(s)
    ensures DigitsValue(s) == LiteralDigits(s)
  {
    if s != "" {
      DigitsValueIs(s[..|s| - 1]);
    }
  }

  // ---- The number that a numeral denotes ----

  /** Digits, and an exponent if there is one. */
  ghost predicate Proper(n: Numeral) {
    && n.whole != "" && AllDigits(n.whole) && AllDigits(n.fraction) && (n.whole[0] == '0' ==> n.whole == "0")
    && (n.exponent == "" || ProperExponent(n.exponent))
  }

  /** A letter, perhaps a sign, and digits. */
  ghost predicate ProperExponent(e: string) {
    && e != "" && (e[0] == 'e' || e[0] == 'E')
    && var k := if |e| > 1 && (e[1] == '+' || e[1] == '-') then 2 else 1;
       |e| > k && AllDigits(e[k..])
  }

  function Sign(n: Numeral): string {
    if n.negative then "-" else ""
  }

  function Point(n: Numeral): string {
    if n.fraction == "" then "" else "." + n.fraction
  }

  function ExponentOf(n: Numeral): int {
    if n.exponent == "" then 0 else LiteralExponent(n.exponent[1..])
  }

  ghost predicate Without(s: string, a: char, b: char) {
    forall i :: 0 <= i < |s| ==> s[i] != a && s[i] != b
  }

  lemma {:induction false} MarkAtSplit(head: string, tail: string, a: char, b: char)
    requires Without(head, a, b)
    requires tail == "" || tail[0] == a || tail[0] == b
    ensures MarkAt(head + tail, a, b) == |head|
  {
    if head == "" {
      assert head + tail == tail;
    } else {
      assert (head + tail)[1..] == head[1..] + tail;
      MarkAtSplit(head[1..], tail, a, b);
    }
  }

  lemma SignSkipped(sign: char, digits: string)
    requires !IsDigit(sign) && AllDigits(digits)
    ensures LiteralDigits([sign] + digits) == LiteralDigits(digits)
  {
    LiteralSkips("", sign, digits);
    assert "" + [sign] + digits == [sign] + digits && "" + digits == digits;
  }

  lemma PaddedReads(pad: bool, n: nat)
    ensures var digits := (if pad then "0" else "") + NatText(n);
            AllDigits(digits) && LiteralDigits(digits) == n
  {
    NatTextIs(n);
    assert Zeros(1) == "0" && "" + NatText(n) == NatText(n);
    ZerosBefore(1, NatText(n));
  }

  lemma SignedExponent(e: string, sign: char, digits: string, n: nat)
    requires e == ['e', sign] + digits && (sign == '-' || sign == '+')
    requires digits != "" && AllDigits(digits) && LiteralDigits(digits) == n
    ensures ProperExponent(e) && LiteralExponent(e[1..]) == if sign == '-' then 0 - n else n
  {
    SignSkipped(sign, digits);
    assert e[1..] == [sign] + digits && e[2..] == digits;
  }

  /** A printed exponent is proper and denotes the number. */
  lemma ExponentReads(x: int)
    ensures ProperExponent(ExponentText(x)) && LiteralExponent(ExponentText(x)[1..]) == x
  {
    var n: nat := if x < 0 then -x else x;
    var sign := if x < 0 then '-' else '+';
    var digits := (if -10 < x < 10 then "0" else "") + NatText(n);
    PaddedReads(-10 < x < 10, n);
    assert ExponentText(x) == ['e', sign] + digits;
    SignedExponent(ExponentText(x), sign, digits, n);
  }

  lemma PlacesOf(head: string, fraction: string)
    requires Without(head, '.', '.')
    ensures Places(head + (if fraction == "" then "" else "." + fraction)) == |fraction|
  {
    MarkAtSplit(head, if fraction == "" then "" else "." + fraction, '.', '.');
  }

  lemma SignedDigits(n: Numeral)
    requires Proper(n)
    ensures LiteralDigits(Sign(n) + n.whole + Point(n)) == LiteralDigits(n.whole + n.fraction)
  {
    var digits := n.whole + n.fraction;
    var head := Sign(n) + n.whole;
    if n.fraction == "" {
      assert head + Point(n) == head && n.whole + "" == n.whole;
    } else {
      LiteralSkips(head, '.', n.fraction);
      assert head + Point(n) == head + ['.'] + n.fraction;
      assert head + n.fraction == Sign(n) + digits;
    }
    if n.negative {
      LiteralSkips("", '-', digits);
      assert "" + ['-'] + digits == "-" + digits;
    }
    assert "" + digits == digits;
  }

  lemma HeadOf(n: Numeral)
    requires Proper(n)
    ensures var head := Sign(n) + n.whole + Point(n);
            && Without(head, 'e', 'E') && Without(Sign(n) + n.whole, '.', '.')
            && head != "" && (head[0] == '-' <==> n.negative)
  {
  }

  lemma LiteralAt(token: string, head: string, after: string)
    requires MarkAt(token, 'e', 'E') == |head| && head <= token
    requires if |head| < |token| then token[|head| + 1..] == after else after == ""
    ensures Literal(token)
         == (LiteralDigits(head), (if |head| < |token| then LiteralExponent(after) else 0) - Places(head))
  {
    var mark := MarkAt(token, 'e', 'E');
    assert token[..mark] == head;
    assert mark < |token| ==> token[mark + 1..] == after;
  }

  lemma LiteralOfParts(head: string, tail: string)
    requires Without(head, 'e', 'E') && head != "" && (tail == "" || tail[0] == 'e' || tail[0] == 'E')
    ensures Negative(head + tail) == Negative(head)
    ensures Literal(head + tail)
         == (LiteralDigits(head), (if tail == "" then 0 else LiteralExponent(tail[1..])) - Places(head))
  {
    MarkAtSplit(head, tail, 'e', 'E');
    LiteralAt(head + tail, head, if tail == "" then "" else tail[1..]);
  }

  lemma HeadReads(n: Numeral)
    requires Proper(n)
    ensures var head := Sign(n) + n.whole + Point(n);
            && head != "" && Without(head, 'e', 'E') && Negative(head) == n.negative
            && LiteralDigits(head) == LiteralDigits(n.whole + n.fraction) && Places(head) == |n.fraction|
  {
    HeadOf(n);
    PlacesOf(Sign(n) + n.whole, n.fraction);
    SignedDigits(n);
  }

  /** A numeral denotes its digits, with the point moved by the exponent and the places after it. */
  lemma NumeralReads(n: Numeral)
    requires Proper(n)
    ensures Negative(NumeralText(n)) == n.negative
    ensures Literal(NumeralText(n)) == (LiteralDigits(n.whole + n.fraction), ExponentOf(n) - |n.fraction|)
  {
    HeadReads(n);
    LiteralOfParts(Sign(n) + n.whole + Point(n), n.exponent);
  }

  // ---- Scanning ----

  /** What can follow a value inside a document. */
  ghost predicate Terminated(rest: string) {
    rest == "" || IsSpace(rest[0]) || rest[0] in [',', ']', '}']
  }

  lemma {:induction false} DigitRunOf(digits: string, rest: string)
    requires AllDigits(digits) && (rest == "" || !IsDigit(rest[0]))
    ensures DigitRun(digits + rest) == |digits|
  {
    if digits == "" {
      assert digits + rest == rest;
    } else {
      DigitRunOf(digits[1..], rest);
      assert (digits + rest)[1..] == digits[1..] + rest;
    }
  }

  lemma ScanIntegerOf(negative: bool, whole: string, more: string)
    requires whole != "" && AllDigits(whole) && (whole[0] == '0' ==> whole == "0")
    requires more == "" || !IsDigit(more[0])
    ensures var sign := if negative then "-" else "";
            ScanInteger(sign + whole + more) == Ok(|sign + whole|)
  {
    var sign := if negative then "-" else "";
    var s := sign + whole + more;
    assert s[|sign|..] == whole + more;
    assert s[0..] == s;
    DigitRunOf(whole, more);
  }

  lemma ScanFractionOf(head: string, fraction: string, more: string)
    requires AllDigits(fraction) && (more == "" || (!IsDigit(more[0]) && more[0] != '.'))
    ensures var point := if fraction == "" then "" else "." + fraction;
            ScanFraction(head + point + more, |head|) == Ok(|head + point|)
  {
    var point := if fraction == "" then "" else "." + fraction;
    var s := head + point + more;
    assert s[|head|..] == point + more;
    if fraction != "" {
      assert s[|head| + 1..] == fraction + more;
      DigitRunOf(fraction, more);
    }
  }

  lemma NoExponent(head: string, rest: string)
    requires Terminated(rest)
    ensures ScanExponent(head + rest, |head|) == Ok(|head|)
  {
    assert (head + rest)[|head|..] == rest;
  }

  lemma ScanExponentOf(head: string, e: string, rest: string)
    requires ProperExponent(e) && Terminated(rest)
    ensures ScanExponent(head + e + rest, |head|) == Ok(|head| + |e|)
  {
    var s := head + e + rest;
    var k := if |e| > 1 && (e[1] == '+' || e[1] == '-') then 2 else 1;
    assert s[|head|..] == e + rest;
    assert s[|head| + 1..] == e[1..] + rest;
    assert s[|head| + k..] == e[k..] + rest;
    DigitRunOf(e[k..], rest);
  }

  lemma ScanTail(head: string, n: Numeral, rest: string)
    requires Proper(n) && Terminated(rest)
    ensures ScanExponent(head + n.exponent + rest, |head|) == Ok(|head| + |n.exponent|)
  {
    if n.exponent == "" {
      NoExponent(head, rest);
      assert head + "" == head;
    } else {
      ScanExponentOf(head, n.exponent, rest);
    }
  }

  /** After an integer or a fraction comes no digit, and after a fraction no point. */
  lemma NoDigitNext(n: Numeral, rest: string)
    requires Proper(n) && Terminated(rest)
    ensures var more := n.exponent + rest;
            more == "" || (!IsDigit(more[0]) && more[0] != '.')
    ensures var more := Point(n) + (n.exponent + rest);
            more == "" || !IsDigit(more[0])
  {
  }

  lemma ScanHead(n: Numeral, rest: string)
    requires Proper(n) && Terminated(rest)
    ensures ScanInteger(Sign(n) + n.whole + (Point(n) + (n.exponent + rest))) == Ok(|Sign(n) + n.whole|)
  {
    NoDigitNext(n, rest);
    ScanIntegerOf(n.negative, n.whole, Point(n) + (n.exponent + rest));
  }

  lemma ScanPoint(head: string, n: Numeral, rest: string)
    requires Proper(n) && Terminated(rest)
    ensures ScanFraction(head + Point(n) + (n.exponent + rest), |head|) == Ok(|head + Point(n)|)
  {
    NoDigitNext(n, rest);
    ScanFractionOf(head, n.fraction, n.exponent + rest);
  }

  /** An integer, a fraction and an exponent, one after the other. */
  lemma ScanParts(head: string, point: string, tail: string, rest: string)
    requires ScanInteger(head + (point + (tail + rest))) == Ok(|head|)
    requires ScanFraction(head + point + (tail + rest), |head|) == Ok(|head + point|)
    requires ScanExponent(head + point + tail + rest, |head + point|) == Ok(|head + point| + |tail|)
    ensures ScanNumber(head + point + tail + rest) == Ok((|head + point + tail|, point != "" || tail != ""))
  {
    Assoc(head + point, tail, rest);
    Assoc(head, point, tail + rest);
  }

  /** A numeral is scanned to its end, and as one with a fraction or an exponent if it has one. */
  lemma ScanNumeral(n: Numeral, rest: string)
    requires Proper(n) && Terminated(rest)
    ensures ScanNumber(NumeralText(n) + rest)
         == Ok((|NumeralText(n)|, n.fraction != "" || n.exponent != ""))
  {
    var head := Sign(n) + n.whole;
    ScanHead(n, rest);
    ScanPoint(head, n, rest);
    ScanTail(head + Point(n), n, rest);
    ScanParts(head, Point(n), n.exponent, rest);
  }

  // ---- Reading ----

  function Integral(negative: bool, n: nat): Result<Json, JsonError> {
    if negative then (if n <= 0x8000_0000_0000_0000 then Ok(Int64(0 - n)) else Err(InvalidSigned))
    else if n < TWO_TO_THE_64 then Ok(Uint64(n)) else Err(InvalidUnsigned)
  }

  /** A numeral without a fraction and an exponent. */
  predicate Plain(n: Numeral) {
    n.fraction == "" && n.exponent == ""
  }

  /** The value of a numeral. */
  function Meant(n: Numeral): Result<Json, JsonError> {
    if Plain(n) then Integral(n.negative, LiteralDigits(n.whole))
    else InRange(FromDecimal(n.negative, LiteralDigits(n.whole + n.fraction), ExponentOf(n) - |n.fraction|))
  }

  /** What a parser gives for a text before `rest`. */
  function Followed<T>(r: Result<T, JsonError>, rest: string): Parse<T> {
    match r
    case Ok(v) => Ok((v, rest))
    case Err(e) => Err(e)
  }

  lemma TakeDrop(a: string, b: string)
    ensures (a + b)[..|a|] == a && (a + b)[|a|..] == b
  {
  }

  lemma PlainText(n: Numeral)
    requires Plain(n)
    ensures NumeralText(n) == if n.negative then "-" + n.whole else n.whole
    ensures n.negative ==> NumeralText(n)[1..] == n.whole
  {
  }

  lemma PlainOf(n: Numeral)
    requires Proper(n) && Plain(n)
    ensures NumberOf(NumeralText(n), false) == Meant(n)
  {
    DigitsValueIs(n.whole);
    PlainText(n);
  }

  lemma FractionalOf(n: Numeral)
    requires Proper(n) && !Plain(n)
    ensures NumberOf(NumeralText(n), true) == Meant(n)
  {
    NumeralReads(n);
  }

  lemma NumberParsed(token: string, isFloat: bool, r: Result<Json, JsonError>, rest: string)
    requires token != "" && (token[0] == '-' || IsDigit(token[0]))
    requires ScanNumber(token + rest) == Ok((|token|, isFloat)) && NumberOf(token, isFloat) == r
    ensures ParseValue(token + rest) == Followed(r, rest)
  {
    TakeDrop(token, rest);
  }

  /** A numeral is read as the value it means, and the text after it is left. */
  lemma NumeralIsParsed(n: Numeral, rest: string)
    requires Proper(n) && Terminated(rest)
    ensures ParseValue(NumeralText(n) + rest) == Followed(Meant(n), rest)
  {
    ScanNumeral(n, rest);
    HeadOf(n);
    if Plain(n) {
      PlainOf(n);
    } else {
      FractionalOf(n);
    }
    NumberParsed(NumeralText(n), !Plain(n), Meant(n), rest);
  }

  // ---- Printed doubles ----

  /** Ten to this power divides the number. */
  predicate Divides(places: nat, m: nat) {
    Times(Over(m, 10, places), 10, places) == m
  }

  /** What a printed double is read back as: an integer if its sixteen digits leave no fraction and it is below 10^16,
      and otherwise the double nearest to its sixteen digits, if that is finite. */
  function Reread(d: Binary64): Result<Json, JsonError> {
    if d.units == 0 then Integral(d.negative, 0)
    else
      var (m, x) := Sixteen(d.units);
      if 0 <= x < 16 && Divides(15 - x, m) then Integral(d.negative, Over(m, 10, 15 - x))
      else InRange(FromDecimal(d.negative, m, x - 15))
  }

  lemma DroppedZeros(whole: string, t: string)
    requires AllDigits(t)
    ensures var f := DropZeros(t);
            AllDigits(f) && Times(LiteralDigits(whole + f), 10, |t| - |f|) == LiteralDigits(whole + t)
  {
    var f := DropZeros(t);
    DropZerosOf(t);
    Assoc(whole, f, Zeros(|t| - |f|));
    ZerosAfter(whole + f, |t| - |f|);
    assert forall i :: 0 <= i < |f| ==> f[i] == t[i];
  }

  /** Dropping the zeros at the end of a fraction does not change the number. */
  lemma StrippedReads(negative: bool, whole: string, t: string, m: nat, exponent: int)
    requires AllDigits(t) && LiteralDigits(whole + t) == m
    ensures var f := DropZeros(t);
            && AllDigits(f)
            && FromDecimal(negative, LiteralDigits(whole + f), exponent - |f|)
               == FromDecimal(negative, m, exponent - |t|)
  {
    var f := DropZeros(t);
    DroppedZeros(whole, t);
    SameNumberSameDouble(negative, LiteralDigits(whole + f), exponent - |f|, |t| - |f|);
  }

  lemma SixteenTexts(m: nat)
    requires TEN_TO_THE_15 <= m < TEN_TO_THE_16
    ensures var s := DigitsText(m, 16); AllDigits(s) && LiteralDigits(s) == m && s[0] != '0'
  {
    TenPowers();
    DigitsTextIs(m, 16);
  }

  lemma Stripped(negative: bool, whole: string, t: string, exponent: string, m: nat)
    requires AllDigits(t) && LiteralDigits(whole + t) == m
    ensures var n := Numeral(negative, whole, DropZeros(t), exponent);
            && AllDigits(n.fraction)
            && (!Plain(n) ==> Meant(n) == InRange(FromDecimal(negative, m, ExponentOf(n) - |t|)))
  {
    var n := Numeral(negative, whole, DropZeros(t), exponent);
    StrippedReads(negative, whole, t, m, ExponentOf(n));
    if !Plain(n) {
      MeantAs(n, m, ExponentOf(n) - |t|);
    }
  }

  lemma MeantAs(n: Numeral, m: nat, exponent: int)
    requires !Plain(n)
    requires FromDecimal(n.negative, LiteralDigits(n.whole + n.fraction), ExponentOf(n) - |n.fraction|)
          == FromDecimal(n.negative, m, exponent)
    ensures Meant(n) == InRange(FromDecimal(n.negative, m, exponent))
  {
  }

  lemma SixteenSplit(m: nat, k: nat)
    requires TEN_TO_THE_15 <= m < TEN_TO_THE_16 && 0 < k <= 16
    ensures var s := DigitsText(m, 16);
            && AllDigits(s[..k]) && AllDigits(s[k..]) && s[..k][0] != '0' && LiteralDigits(s[..k] + s[k..]) == m
  {
    var s := DigitsText(m, 16);
    SixteenTexts(m);
    assert s[..k] + s[k..] == s;
  }

  /** With an exponent. */
  lemma LargeOrSmall(negative: bool, m: nat, x: int)
    requires TEN_TO_THE_15 <= m < TEN_TO_THE_16 && (x < -4 || x >= 16)
    ensures var n := Significant(negative, DigitsText(m, 16), x);
            Proper(n) && Meant(n) == InRange(FromDecimal(negative, m, x - 15))
  {
    var s := DigitsText(m, 16);
    SixteenSplit(m, 1);
    Stripped(negative, s[..1], s[1..], ExponentText(x), m);
    ExponentReads(x);
  }

  lemma BelowOneOf(negative: bool, m: nat, k: nat)
    requires TEN_TO_THE_15 <= m < TEN_TO_THE_16
    ensures var n := Numeral(negative, "0", DropZeros(Zeros(k) + DigitsText(m, 16)), "");
            Proper(n) && Meant(n) == InRange(FromDecimal(negative, m, 0 - (k + 16)))
  {
    var t := Zeros(k) + DigitsText(m, 16);
    ZerosInFront(m, k);
    Stripped(negative, "0", t, "", m);
    assert |t| == k + 16;
  }

  /** Below one. */
  lemma BelowOne(negative: bool, m: nat, x: int)
    requires TEN_TO_THE_15 <= m < TEN_TO_THE_16 && -4 <= x < 0
    ensures var n := Significant(negative, DigitsText(m, 16), x);
            Proper(n) && Meant(n) == InRange(FromDecimal(negative, m, x - 15))
  {
    BelowOneOf(negative, m, -x - 1);
  }

  lemma ZerosInFront(m: nat, k: nat)
    requires TEN_TO_THE_15 <= m < TEN_TO_THE_16
    ensures var t := Zeros(k) + DigitsText(m, 16);
            AllDigits(t) && LiteralDigits("0" + t) == m && DropZeros(t) != ""
  {
    var s := DigitsText(m, 16);
    SixteenTexts(m);
    assert "0" + (Zeros(k) + s) == Zeros(k + 1) + s;
    ZerosBefore(k + 1, s);
    NotAllZeros(Zeros(k) + s, k);
  }

  lemma NotAllZeros(t: string, k: nat)
    requires k < |t| && t[k] != '0'
    ensures DropZeros(t) != ""
  {
    DropZerosOf(t);
  }

  /** From one on. */
  lemma FromOneOn(negative: bool, m: nat, x: int)
    requires TEN_TO_THE_15 <= m < TEN_TO_THE_16 && 0 <= x < 16
    ensures var n := Significant(negative, DigitsText(m, 16), x);
            && Proper(n)
            && Meant(n) == if Divides(15 - x, m) then Integral(negative, Over(m, 10, 15 - x))
                           else InRange(FromDecimal(negative, m, x - 15))
  {
    var s := DigitsText(m, 16);
    SixteenSplit(m, x + 1);
    Stripped(negative, s[..x + 1], s[x + 1..], "", m);
    WholeDigits(m, 15 - x);
  }

  lemma PrefixIs(m: nat, k: nat, places: nat)
    requires TEN_TO_THE_15 <= m < TEN_TO_THE_16 && k + places == 16
    ensures LiteralDigits(DigitsText(m, 16)[..k]) == Over(m, 10, places)
  {
    DigitsTextPrefix(m, 16, k);
    TenPowers();
    OverBelow(m, k, places);
    DigitsTextIs(Over(m, 10, places), k);
  }

  lemma {:induction false} OverBelow(m: nat, k: nat, places: nat)
    requires m < Pow(10, k + places)
    ensures Over(m, 10, places) < Pow(10, k)
    decreases places
  {
    if places > 0 {
      QuotientBelow(10, m, Pow(10, k + places - 1));
      OverBelow(m / 10, k, places - 1);
    }
  }

  /** The last digits are zeros exactly if the power of ten divides the number. */
  lemma WholeDigits(m: nat, places: nat)
    requires TEN_TO_THE_15 <= m < TEN_TO_THE_16 && places < 16
    ensures var s := DigitsText(m, 16);
            && LiteralDigits(s[..16 - places]) == Over(m, 10, places)
            && (DropZeros(s[16 - places..]) == "" <==> Divides(places, m))
  {
    var s := DigitsText(m, 16);
    var k := 16 - places;
    var head, tail := s[..k], s[k..];
    SixteenTexts(m);
    assert head + tail == s;
    LiteralAppend(head, tail);
    PrefixIs(m, k, places);
    TimesIsPow(Over(m, 10, places), 10, places);
    if DropZeros(tail) == "" {
      DropZerosOf(tail);
      ZerosAfter(head, places);
      assert tail == Zeros(places);
    } else if LiteralDigits(tail) == 0 {
      NothingLeft(tail);
    }
  }

  lemma PrintedMeans(d: Binary64)
    ensures Proper(PrintedNumeral(d)) && Meant(PrintedNumeral(d)) == Reread(d)
  {
    if d.units == 0 {
      NatTextIs(0);
      assert NatText(0) == "0";
    } else {
      var (m, x) := Sixteen(d.units);
      SixteenDigits(d.units);
      if x < -4 || x >= 16 {
        LargeOrSmall(d.negative, m, x);
      } else if x < 0 {
        BelowOne(d.negative, m, x);
      } else {
        FromOneOn(d.negative, m, x);
      }
    }
  }

  lemma {:induction false} OverAtMost(m: nat, places: nat)
    ensures Over(m, 10, places) <= m
    decreases places
  {
    if places > 0 {
      OverAtMost(m / 10, places - 1);
    }
  }

  /** It is read back unless its sixteen digits round to a number out of range. */
  lemma RereadFails(d: Binary64)
    ensures Reread(d).Ok? || Reread(d) == Err(InvalidNumber)
    ensures Reread(d).Err? ==>
              d.units > 0 && FromDecimal(d.negative, Sixteen(d.units).0, Sixteen(d.units).1 - 15).None?
  {
    if d.units > 0 {
      var (m, x) := Sixteen(d.units);
      SixteenDigits(d.units);
      if 0 <= x < 16 {
        OverAtMost(m, 15 - x);
      }
    }
  }

  /** A whole double below 10^16 comes back as an integer. */
  lemma WholeBecomesInteger(negative: bool, n: nat)
    requires n < TEN_TO_THE_16
    ensures Reread(Binary64(negative, Times(n, 2, 1074))) == Ok(if negative then Int64(0 - n) else Uint64(n))
  {
    if n == 0 {
      TimesZero(2, 1074);
    } else {
      TimesPositive(n, 2, 1074);
      SixteenOfWhole(n);
      var (_, x) := Sixteen(Times(n, 2, 1074));
      Cancels(n, 10, 15 - x, 0);
    }
  }
}
