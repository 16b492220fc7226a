/** Hexadecimal texts of pools, and trimming. */
module Hex {
  import opened Machine
  import opened Radix
  import opened Bincode

  // ---- Digits ----

  const DIGITS := "0123456789abcdef"

  function LowHex(d: nat): char
    requires d < 16
  {
    if d < 10 then ('0' as int + d) as char else ('a' as int + (d - 10)) as char
  }

  /** The value of a digit of either case. */
  function HexValue(c: char): Option<nat> {
    if '0' <= c <= '9' then Some(c as int - '0' as int)
    else if 'a' <= c <= 'f' then Some(c as int - 'a' as int + 10)
    else if 'A' <= c <= 'F' then Some(c as int - 'A' as int + 10)
    else None
  }

  lemma LowHexValue(d: nat)
    requires d < 16
    ensures HexValue(LowHex(d)) == Some(d) && LowHex(d) == DIGITS[d]
  {
  }

  // ---- Bytes as text ----

  function HexText(bytes: seq<byte>): (text: string)
    ensures |text| == 2 * |bytes|
  {
    if bytes == [] then ""
    else HexText(bytes[..|bytes| - 1]) + [LowHex(bytes[|bytes| - 1] / 16), LowHex(bytes[|bytes| - 1] % 16)]
  }

  lemma {:induction false} HexTextAt(bytes: seq<byte>, i: nat)
    requires i < |bytes|
    ensures HexText(bytes)[2 * i] == LowHex(bytes[i] / 16) && HexText(bytes)[2 * i + 1] == LowHex(bytes[i] % 16)
  {
    if i < |bytes| - 1 {
      HexTextAt(bytes[..|bytes| - 1], i);
    }
  }

  lemma NextByteText(bytes: seq<byte>, i: nat)
    requires i < |bytes|
    ensures HexText(bytes[..i + 1]) == HexText(bytes[..i]) + [LowHex(bytes[i] / 16), LowHex(bytes[i] % 16)]
  {
    assert bytes[..i + 1][..i] == bytes[..i];
  }

  /** The two digits of byte number `i`. */
  method PutDigits(out: array<char>, i: nat, b: byte)
    requires 2 * i + 2 <= out.Length
    modifies out
    ensures out[..2 * i + 2] == old(out[..2 * i]) + [LowHex(b / 16), LowHex(b % 16)]
  {
    LowHexValue(b / 16);
    LowHexValue(b % 16);
    out[2 * i] := DIGITS[b / 16];
    out[2 * i + 1] := DIGITS[b % 16];
    assert out[..2 * i + 2] == out[..2 * i] + [out[2 * i], out[2 * i + 1]];
  }

  method BytesToHex(bytes: seq<byte>) returns (text: string)
    ensures text == HexText(bytes)
  {
    var out := new char[2 * |bytes|](_ => '0');
    for i := 0 to |bytes|
      invariant out[..2 * i] == HexText(bytes[..i])
    {
      NextByteText(bytes, i);
      PutDigits(out, i, bytes[i]);
    }
    assert bytes[..|bytes|] == bytes;
    text := out[..];
  }

  // ---- A nonce as text ----

  /** Most significant digit first. */
  function NonceText(v: u32): (text: string)
    ensures |text| == 8
  {
    seq(8, i requires 0 <= i < 8 => LowHex(FixedDigits(16, 8, v)[i]))
  }

  function Digits16(text: string): seq<nat>
    requires forall i :: 0 <= i < |text| ==> HexValue(text[i]).Some?
  {
    seq(|text|, i requires 0 <= i < |text| => HexValue(text[i]).value)
  }

  lemma {:induction false} HexTextIsHex(bytes: seq<byte>, i: nat)
    requires i < 2 * |bytes|
    ensures HexValue(HexText(bytes)[i]) == Some(if i % 2 == 0 then bytes[i / 2] / 16 else bytes[i / 2] % 16)
  {
    HexTextAt(bytes, i / 2);
    LowHexValue(bytes[i / 2] / 16);
    LowHexValue(bytes[i / 2] % 16);
  }

  /** The text of bytes denotes the same number in base 16 as the bytes do in base 256. */
  lemma {:induction false} HexTextDenotes(bytes: seq<byte>)
    ensures forall i :: 0 <= i < 2 * |bytes| ==> HexValue(HexText(bytes)[i]).Some?
    ensures Value(16, Digits16(HexText(bytes))) == Value(0x100, bytes)
  {
    forall i | 0 <= i < 2 * |bytes|
      ensures HexValue(HexText(bytes)[i]).Some?
    {
      HexTextIsHex(bytes, i);
    }
    if bytes != [] {
      var n := |bytes| - 1;
      var b := bytes[n];
      HexTextDenotes(bytes[..n]);
      LowHexValue(b / 16);
      LowHexValue(b % 16);
      var high := Digits16(HexText(bytes[..n]));
      assert Digits16(HexText(bytes)) == high + [b / 16] + [b % 16];
      DigitMore(16, high, b / 16);
      DigitMore(16, high + [b / 16], b % 16);
    }
  }

  lemma DigitMore(base: nat, ds: seq<nat>, d: nat)
    ensures Value(base, ds + [d]) == Value(base, ds) * base + d
  {
    assert (ds + [d])[..|ds|] == ds;
  }

  /** The text reads as the nonce. */
  lemma NonceTextReads(v: u32, width: nat)
    requires width == 8
    ensures forall i :: 0 <= i < 8 ==> HexValue(NonceText(v)[i]).Some?
    ensures Value(16, Digits16(NonceText(v))) == v
  {
    assert Digits16(NonceText(v)) == FixedDigits(16, width, v);
    SixteenToTheEight(width);
    ValueOfFixedDigits(16, width, v);
  }

  lemma SixteenToTheEight(width: nat)
    requires width == 8
    ensures Pow(16, width) == TWO_TO_THE_32
  {
    PowAdd(16, 4, 4);
  }

  lemma {:induction false} FixedDigitsAt(len: nat, n: nat, i: nat)
    requires i < len
    ensures FixedDigits(16, len, n)[i] == FixedDigits(16, i + 1, ShiftRight4(n, len - 1 - i))[i]
    ensures FixedDigits(16, i + 1, ShiftRight4(n, len - 1 - i))[i] == ShiftRight4(n, len - 1 - i) % 16
    decreases len
  {
    if i < len - 1 {
      FixedDigitsAt(len - 1, n / 16, i);
      ShiftStep4(n, len - 2 - i);
    }
  }

  /** `n >> (4 * i)`. */
  function ShiftRight4(n: nat, i: nat): nat {
    if i == 0 then n else ShiftRight4(n, i - 1) / 16
  }

  lemma {:induction false} ShiftStep4(n: nat, i: nat)
    ensures ShiftRight4(n, i + 1) == ShiftRight4(n / 16, i)
  {
    if i > 0 {
      ShiftStep4(n, i - 1);
    }
  }

  method U32ToHexBe(v: u32) returns (text: string)
    ensures text == NonceText(v)
  {
    var out := new char[8](_ => '0');
    var rest: nat := v;
    var i := 8;
    while i > 0
      invariant 0 <= i <= 8 && rest == ShiftRight4(v, 8 - i)
      invariant forall k :: i <= k < 8 ==> out[k] == NonceText(v)[k]
    {
      i := i - 1;
      FixedDigitsAt(8, v, i);
      LowHexValue(rest % 16);
      out[i] := DIGITS[rest % 16];
      rest := rest / 16;
    }
    text := out[..];
    assert text == NonceText(v);
  }

  method U32ToHexLe(v: u32) returns (text: string)
    ensures text == HexText(LittleEndian(v, 4))
  {
    var out := new char[8](_ => '0');
    ghost var bytes := LittleEndian(v, 4);
    for i := 0 to 4
      invariant out[..2 * i] == HexText(bytes[..i])
    {
      var b := ShiftRight8(v, i) % 0x100;
      NextByteText(bytes, i);
      PutDigits(out, i, b);
    }
    assert bytes[..4] == bytes;
    text := out[..];
  }

  // ---- Trimming ----

  function TrimStart(s: string): string {
    if s == "" || !IsSpace(s[0]) then s else TrimStart(s[1..])
  }

  function TrimEnd(s: string): string {
    if s == "" || !IsSpace(s[|s| - 1]) then s else TrimEnd(s[..|s| - 1])
  }

  function Trimmed(s: string): string {
    TrimEnd(TrimStart(s))
  }

  /** A text without blanks around it is left alone. */
  lemma TrimmedAlready(s: string)
    requires s == "" || (!IsSpace(s[0]) && !IsSpace(s[|s| - 1]))
    ensures Trimmed(s) == s
  {
  }

  predicate AllBlank(s: string) {
    forall i :: 0 <= i < |s| ==> IsSpace(s[i])
  }

  lemma {:induction false} TrimStartDrops(s: string) returns (start: string)
    ensures AllBlank(start) && s == start + TrimStart(s)
    ensures TrimStart(s) == "" || !IsSpace(TrimStart(s)[0])
  {
    start := "";
    if s != "" && IsSpace(s[0]) {
      var rest := TrimStartDrops(s[1..]);
      ConsSplit(s, rest, TrimStart(s[1..]));
      start := [s[0]] + rest;
    }
  }

  lemma ConsSplit(s: string, rest: string, t: string)
    requires s != "" && s[1..] == rest + t
    ensures s == ([s[0]] + rest) + t
  {
  }

  lemma {:induction false} TrimEndDrops(s: string) returns (end: string)
    ensures AllBlank(end) && s == TrimEnd(s) + end
    ensures TrimEnd(s) == "" || !IsSpace(TrimEnd(s)[|TrimEnd(s)| - 1])
  {
    end := "";
    if s != "" && IsSpace(s[|s| - 1]) {
      end := TrimEndDrops(s[..|s| - 1]);
      end := end + [s[|s| - 1]];
      assert s == s[..|s| - 1] + [s[|s| - 1]];
    }
  }

  /** Trimming takes blanks off both ends, and all of them. */
  lemma TrimmedDropsBlanks(s: string) returns (start: string, end: string)
    ensures AllBlank(start) && AllBlank(end) && s == start + Trimmed(s) + end
    ensures Trimmed(s) == "" || (!IsSpace(Trimmed(s)[0]) && !IsSpace(Trimmed(s)[|Trimmed(s)| - 1]))
  {
    start := TrimStartDrops(s);
    end := TrimEndDrops(TrimStart(s));
    Assoc(start, Trimmed(s), end);
    if Trimmed(s) != "" {
      assert TrimStart(s)[0] == Trimmed(s)[0];
    }
  }

  lemma StartStep(s: string, k: nat)
    requires k < |s| && IsSpace(s[k])
    ensures TrimStart(s[k + 1..]) == TrimStart(s[k..])
  {
    assert s[k..][1..] == s[k + 1..];
  }

  lemma EndStep(s: string, start: nat, end: nat)
    requires start < end <= |s| && IsSpace(s[end - 1])
    ensures TrimEnd(s[start..end - 1]) == TrimEnd(s[start..end])
  {
    assert s[start..end][..end - start - 1] == s[start..end - 1];
  }

  lemma StartStop(s: string, k: nat)
    requires k <= |s| && (k < |s| ==> !IsSpace(s[k]))
    ensures TrimStart(s[k..]) == s[k..]
  {
  }

  lemma EndStop(s: string, start: nat, end: nat)
    requires start <= end <= |s| && (end > start ==> !IsSpace(s[end - 1]))
    ensures TrimEnd(s[start..end]) == s[start..end]
  {
  }

  method Trim(s: string) returns (trimmed: string)
    ensures trimmed == Trimmed(s)
  {
    var start := 0;
    assert s[0..] == s;
    while start < |s| && IsSpace(s[start])
      invariant 0 <= start <= |s|
      invariant TrimStart(s[start..]) == TrimStart(s)
    {
      StartStep(s, start);
      start := start + 1;
    }
    StartStop(s, start);
    var end := |s|;
    assert s[start..|s|] == s[start..];
    while end > start && IsSpace(s[end - 1])
      invariant start <= end <= |s|
      invariant TrimEnd(s[start..end]) == TrimEnd(s[start..])
    {
      EndStep(s, start, end);
      end := end - 1;
    }
    EndStop(s, start, end);
    trimmed := s[start..end];
  }

  // ---- Text as bytes ----

  /** The byte that two digits stand for. */
  function PairValue(hi: char, lo: char): Option<byte> {
    if HexValue(hi).None? || HexValue(lo).None? then None
    else Some(HexValue(hi).value * 16 + HexValue(lo).value)
  }

  function Pairs(s: string): Option<seq<byte>>
    requires |s| % 2 == 0
  {
    if s == "" then Some([])
    else
      var head :- Pairs(s[..|s| - 2]);
      var b :- PairValue(s[|s| - 2], s[|s| - 1]);
      Some(head + [b])
  }

  lemma PairsStep(s: string, i: nat)
    requires i + 2 <= |s| && i % 2 == 0
    ensures Pairs(s[..i + 2]) == if Pairs(s[..i]).None? || PairValue(s[i], s[i + 1]).None? then None
                                 else Some(Pairs(s[..i]).value + [PairValue(s[i], s[i + 1]).value])
  {
    assert s[..i + 2][..i] == s[..i];
  }

  function WithoutPrefix(s: string): string {
    if |s| >= 2 && s[0] == '0' && (s[1] == 'x' || s[1] == 'X') then s[2..] else s
  }

  function ParsedHex(text: string): Option<seq<byte>> {
    if |WithoutPrefix(Trimmed(text))| % 2 != 0 then None else Pairs(WithoutPrefix(Trimmed(text)))
  }

  lemma {:induction false} PairsFail(s: string, i: nat)
    requires |s| % 2 == 0 && i % 2 == 0 && i <= |s| && Pairs(s[..i]).None?
    ensures Pairs(s).None?
    decreases |s| - i
  {
    if i == |s| {
      assert s[..i] == s;
    } else {
      PairsStep(s, i);
      PairsFail(s, i + 2);
    }
  }

  method ReadPairs(clean: string) returns (bytes: Option<seq<byte>>)
    requires |clean| % 2 == 0
    ensures bytes == Pairs(clean)
  {
    var out: seq<byte> := [];
    var i := 0;
    while i < |clean|
      invariant i % 2 == 0 && 0 <= i <= |clean|
      invariant Pairs(clean[..i]) == Some(out)
    {
      PairsStep(clean, i);
      var b := PairValue(clean[i], clean[i + 1]);
      if b.None? {
        PairsFail(clean, i + 2);
        return None;
      }
      out := out + [b.value];
      i := i + 2;
    }
    assert clean[..|clean|] == clean;
    bytes := Some(out);
  }

  method ParseHex(text: string) returns (bytes: Option<seq<byte>>)
    ensures bytes == ParsedHex(text)
  {
    var clean := Trim(text);
    if |clean| >= 2 && clean[0] == '0' && (clean[1] == 'x' || clean[1] == 'X') {
      clean := clean[2..];
    }
    if |clean| % 2 != 0 {
      return None;
    }
    bytes := ReadPairs(clean);
  }

  lemma PairOfByte(b: byte)
    ensures PairValue(LowHex(b / 16), LowHex(b % 16)) == Some(b)
  {
    LowHexValue(b / 16);
    LowHexValue(b % 16);
  }

  lemma {:induction false} PairsOfHexText(bytes: seq<byte>)
    ensures Pairs(HexText(bytes)) == Some(bytes)
  {
    if bytes != [] {
      var n := |bytes| - 1;
      PairsOfHexText(bytes[..n]);
      PairOfByte(bytes[n]);
      var last := [LowHex(bytes[n] / 16), LowHex(bytes[n] % 16)];
      LastPair(HexText(bytes[..n]), last);
      assert bytes == bytes[..n] + [bytes[n]];
    }
  }

  lemma LastPair(head: string, last: string)
    requires |head| % 2 == 0 && |last| == 2
    ensures Pairs(head + last) == if Pairs(head).None? || PairValue(last[0], last[1]).None? then None
                                  else Some(Pairs(head).value + [PairValue(last[0], last[1]).value])
  {
    assert (head + last)[..|head + last| - 2] == head;
  }

  lemma LowHexPlain(d: nat)
    requires d < 16
    ensures !IsSpace(LowHex(d)) && LowHex(d) != 'x' && LowHex(d) != 'X'
  {
  }

  /** A text of digits, at least one byte long. */
  predicate Plain(hex: string) {
    |hex| >= 2 && |hex| % 2 == 0 && !IsSpace(hex[0]) && !IsSpace(hex[|hex| - 1]) && hex[1] != 'x' && hex[1] != 'X'
  }

  lemma PlainText(bytes: seq<byte>)
    requires bytes != []
    ensures Plain(HexText(bytes))
  {
    var n := |bytes| - 1;
    HexTextAt(bytes, 0);
    HexTextAt(bytes, n);
    LowHexPlain(bytes[0] / 16);
    LowHexPlain(bytes[0] % 16);
    LowHexPlain(bytes[n] % 16);
  }

  lemma PrefixEnds(prefix: string, text: string)
    requires text != "" && !IsSpace(text[0]) && !IsSpace(text[|text| - 1])
    requires IsPrefix(prefix)
    ensures !IsSpace((prefix + text)[0]) && !IsSpace((prefix + text)[|prefix + text| - 1])
  {
  }

  predicate IsPrefix(prefix: string) {
    prefix == "" || prefix == "0x" || prefix == "0X"
  }

  lemma TextParses(text: string, hex: string, bytes: seq<byte>)
    requires text == "" || (!IsSpace(text[0]) && !IsSpace(text[|text| - 1]))
    requires WithoutPrefix(text) == hex && |hex| % 2 == 0 && Pairs(hex) == Some(bytes)
    ensures ParsedHex(text) == Some(bytes)
  {
    TrimmedAlready(text);
  }

  /** Every text that the printer makes is read back, also with a prefix. */
  lemma ParseAfterPrint(bytes: seq<byte>, prefix: string)
    requires IsPrefix(prefix)
    ensures ParsedHex(prefix + HexText(bytes)) == Some(bytes)
  {
    if bytes == [] {
      PrefixAlone(prefix);
    } else {
      PairsOfHexText(bytes);
      PlainText(bytes);
      PrefixedParses(prefix, HexText(bytes), bytes);
    }
  }

  lemma PrefixedParses(prefix: string, hex: string, bytes: seq<byte>)
    requires IsPrefix(prefix) && Plain(hex) && Pairs(hex) == Some(bytes)
    ensures ParsedHex(prefix + hex) == Some(bytes)
  {
    PrefixEnds(prefix, hex);
    PrefixGone(prefix, hex);
    TextParses(prefix + hex, hex, bytes);
  }

  lemma PrefixAlone(prefix: string)
    requires IsPrefix(prefix)
    ensures ParsedHex(prefix + HexText([])) == Some([])
  {
    assert prefix + HexText([]) == prefix;
    PrefixGone(prefix, "");
    assert prefix + "" == prefix;
    TextParses(prefix, "", []);
  }

  lemma PrefixGone(prefix: string, text: string)
    requires IsPrefix(prefix)
    requires |text| >= 2 ==> text[1] != 'x' && text[1] != 'X'
    ensures WithoutPrefix(prefix + text) == text
  {
    if prefix == "" {
      assert prefix + text == text;
    } else {
      assert (prefix + text)[2..] == text;
    }
  }

  function LowerDigit(c: char): char {
    if 'A' <= c <= 'F' then (c as int + 32) as char else c
  }

  function Lower(s: string): string {
    if s == "" then "" else Lower(s[..|s| - 1]) + [LowerDigit(s[|s| - 1])]
  }

  lemma PairPrints(hi: char, lo: char)
    requires PairValue(hi, lo).Some?
    ensures var b := PairValue(hi, lo).value; LowHex(b / 16) == LowerDigit(hi) && LowHex(b % 16) == LowerDigit(lo)
  {
    assert LowHex(HexValue(hi).value) == LowerDigit(hi);
    assert LowHex(HexValue(lo).value) == LowerDigit(lo);
  }

  /** What is read prints as the text in lower case. */
  lemma {:induction false} PrintAfterParse(s: string)
    requires |s| % 2 == 0 && Pairs(s).Some?
    ensures HexText(Pairs(s).value) == Lower(s)
  {
    if s != "" {
      var n := |s| - 2;
      PrintAfterParse(s[..n]);
      Unsnoc2(s, n);
      PrintPair(s[..n], s[n], s[n + 1]);
    }
  }

  lemma PrintPair(head: string, hi: char, lo: char)
    requires |head| % 2 == 0 && Pairs(head + [hi] + [lo]).Some?
    requires Pairs(head).Some? ==> HexText(Pairs(head).value) == Lower(head)
    ensures HexText(Pairs(head + [hi] + [lo]).value) == Lower(head + [hi] + [lo])
  {
    LastPair(head, [hi] + [lo]);
    Assoc(head, [hi], [lo]);
    PairPrints(hi, lo);
    HexTextLast(Pairs(head).value, PairValue(hi, lo).value);
    LowerLast(head, hi, lo);
  }

  lemma HexTextLast(head: seq<byte>, b: byte)
    ensures HexText(head + [b]) == HexText(head) + [LowHex(b / 16), LowHex(b % 16)]
  {
    assert (head + [b])[..|head|] == head;
  }

  lemma LowerSnoc(s: string, c: char)
    ensures Lower(s + [c]) == Lower(s) + [LowerDigit(c)]
  {
    assert (s + [c])[..|s|] == s;
  }

  lemma LowerLast(head: string, hi: char, lo: char)
    ensures Lower(head + [hi] + [lo]) == Lower(head) + [LowerDigit(hi)] + [LowerDigit(lo)]
  {
    LowerSnoc(head, hi);
    LowerSnoc(head + [hi], lo);
  }

  lemma Unsnoc2(s: string, n: nat)
    requires |s| == n + 2
    ensures s == s[..n] + [s[n]] + [s[n + 1]]
  {
  }
}
