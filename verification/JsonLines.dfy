/** Text without indentation stands on one line; and what the escape of a control character denotes. */
module JsonLines {
  import opened Machine
  import opened Json
  import Doubles
  import Hex
  import Radix

  /** No control character: in particular, no end of line. */
  ghost predicate Printable(s: string) {
    forall i :: 0 <= i < |s| ==> s[i] >= ' '
  }

  lemma {:induction false} NatPrintable(n: nat)
    ensures Printable(NatText(n))
  {
    if n >= 10 {
      NatPrintable(n / 10);
    }
  }

  lemma IntPrintable(i: int)
    ensures Printable(IntText(i))
  {
    NatPrintable(if i < 0 then -i else i);
  }

  lemma {:induction false} DigitsPrintable(n: nat, len: nat)
    ensures Printable(DigitsText(n, len))
  {
    if len > 0 {
      DigitsPrintable(n / 10, len - 1);
    }
  }

  lemma {:induction false} DropZerosPrintable(s: string)
    requires Printable(s)
    ensures Printable(DropZeros(s))
  {
    if s != "" && s[|s| - 1] == '0' {
      DropZerosPrintable(s[..|s| - 1]);
    }
  }

  lemma ExponentPrintable(x: int)
    ensures Printable(ExponentText(x))
  {
    NatPrintable(if x < 0 then -x else x);
  }

  lemma SignificantPrintable(negative: bool, s: string, x: int)
    requires |s| == 16 && Printable(s)
    ensures var n := Significant(negative, s, x);
            Printable(n.whole) && Printable(n.fraction) && Printable(n.exponent)
  {
    if x < -4 || x >= 16 {
      DropZerosPrintable(s[1..]);
      ExponentPrintable(x);
    } else if x < 0 {
      assert Printable(Zeros(-x - 1));
      DropZerosPrintable(Zeros(-x - 1) + s);
    } else {
      DropZerosPrintable(s[x + 1..]);
    }
  }

  lemma NumeralPrintable(n: Numeral)
    requires Printable(n.whole) && Printable(n.fraction) && Printable(n.exponent)
    ensures Printable(NumeralText(n))
  {
  }

  lemma DoublePrintable(d: Doubles.Binary64)
    ensures Printable(DoubleText(d))
  {
    if d.units != 0 {
      var (m, x) := Doubles.Sixteen(d.units);
      DigitsPrintable(m, 16);
      SignificantPrintable(d.negative, DigitsText(m, 16), x);
    }
    NumeralPrintable(PrintedNumeral(d));
  }

  lemma {:induction false} EscapePrintable(s: string)
    ensures Printable(EscapeChars(s))
  {
    if s != "" {
      EscapePrintable(s[1..]);
      assert Printable(EscapeChar(s[0]));
    }
  }

  lemma QuotedPrintable(s: string)
    ensures Printable(Escape(s))
  {
    EscapePrintable(s);
    Joined("\"", EscapeChars(s), "\"");
  }

  lemma Joined(a: string, b: string, c: string)
    requires Printable(a) && Printable(b) && Printable(c)
    ensures Printable(a + b + c)
  {
  }

  lemma {:induction false} TextPrintable(v: Json, style: Style, level: nat)
    requires !style.pretty
    ensures Printable(Print(v, style, level))
    decreases v, 1
  {
    match v
    case Null =>
    case Bool(b) =>
    case Int64(i) => IntPrintable(i);
    case Uint64(u) => NatPrintable(u);
    case Double(d) => DoublePrintable(d);
    case Str(s) => QuotedPrintable(s);
    case Arr(items) =>
      ItemsPrintable(items, style, level);
      Joined("[", BodyArray(items, style, level), "]");
    case Obj(fields) =>
      FieldsPrintable(fields, style, level);
      Joined("{", BodyObject(fields, style, level), "}");
  }

  lemma {:induction false} ItemsPrintable(items: seq<Json>, style: Style, level: nat)
    requires !style.pretty
    ensures Printable(PrintItems(items, style, level))
    decreases items, 0
  {
    if items != [] {
      TextPrintable(items[0], style, level + 1);
      ItemsPrintable(items[1..], style, level);
      Joined(Print(items[0], style, level + 1), if |items| > 1 then "," else "", PrintItems(items[1..], style, level));
    }
  }

  lemma {:induction false} FieldsPrintable(fields: seq<Field>, style: Style, level: nat)
    requires !style.pretty
    ensures Printable(PrintFields(fields, style, level))
    decreases fields, 0
  {
    if fields != [] {
      var text := Print(fields[0].value, style, level + 1);
      QuotedPrintable(fields[0].key);
      TextPrintable(fields[0].value, style, level + 1);
      Joined(Escape(fields[0].key), ":", text);
      FieldsPrintable(fields[1..], style, level);
      Joined(PrintField(fields[0], style, level), if |fields| > 1 then "," else "",
        PrintFields(fields[1..], style, level));
    }
  }

  /** A control character without a name is escaped by its number, in hexadecimal. */
  lemma EscapeDenotes(c: char)
    requires BadControl(c)
    ensures var text := EscapeChar(c);
            && |text| == 6 && text[0] == '\\' && text[1] == 'u'
            && (forall i :: 2 <= i < 6 ==> Hex.HexValue(text[i]).Some?)
            && Radix.Value(16, Hex.Digits16(text[2..])) == c as int
  {
    var n := c as int;
    var text := EscapeChar(c);
    assert text[2..] == ['0', '0', HexDigit(n / 16), HexDigit(n % 16)];
    assert Hex.Digits16(text[2..]) == [0, 0, n / 16, n % 16];
    FourDigits(0, 0, n / 16, n % 16);
  }

  lemma FourDigits(a: nat, b: nat, c: nat, d: nat)
    ensures Radix.Value(16, [a, b, c, d]) == ((a * 16 + b) * 16 + c) * 16 + d
  {
    Hex.DigitMore(16, [], a);
    Hex.DigitMore(16, [a], b);
    Hex.DigitMore(16, [a, b], c);
    Hex.DigitMore(16, [a, b, c], d);
    assert [] + [a] == [a] && [a] + [b] == [a, b] && [a, b] + [c] == [a, b, c] && [a, b, c] + [d] == [a, b, c, d];
  }
}
