/** The printer and the parser as they run: text appended to a buffer, a position moved over a text. */
module JsonText {
  import opened Machine
  import opened Json

  /** The text of one element of an array. */
  ghost function ItemStep(items: seq<Json>, i: nat, style: Style, level: nat): string
    requires i < |items|
  {
    NewLine(style, level + 1) + Print(items[i], style, level + 1) + (if i + 1 < |items| then "," else "")
  }

  ghost function FieldStep(fields: seq<Field>, i: nat, style: Style, level: nat): string
    requires i < |fields|
  {
    NewLine(style, level + 1) + PrintField(fields[i], style, level) + (if i + 1 < |fields| then "," else "")
  }

  lemma ItemsStep(items: seq<Json>, i: nat, style: Style, level: nat)
    requires i < |items|
    ensures PrintItems(items[i..], style, level)
         == ItemStep(items, i, style, level) + PrintItems(items[i + 1..], style, level)
  {
    assert items[i..][1..] == items[i + 1..];
  }

  lemma FieldsStep(fields: seq<Field>, i: nat, style: Style, level: nat)
    requires i < |fields|
    ensures PrintFields(fields[i..], style, level)
         == FieldStep(fields, i, style, level) + PrintFields(fields[i + 1..], style, level)
  {
    assert fields[i..][1..] == fields[i + 1..];
  }

  method AppendIndent(before: string, style: Style, level: nat) returns (out: string)
    ensures out == before + NewLine(style, level)
  {
    out := before;
    if style.pretty {
      out := out + "\n";
      out := out + Spaces(level * style.indent);
    }
  }

  method EscapeString(before: string, s: string) returns (out: string)
    ensures out == before + Escape(s)
  {
    out := before + "\"";
    ghost var done := "";
    var i := 0;
    assert s[0..] == s;
    while i < |s|
      invariant 0 <= i <= |s|
      invariant out == before + "\"" + done
      invariant done + EscapeChars(s[i..]) == EscapeChars(s)
    {
      assert s[i..][1..] == s[i + 1..];
      Assoc(done, EscapeChar(s[i]), EscapeChars(s[i + 1..]));
      Assoc(before + "\"", done, EscapeChar(s[i]));
      done := done + EscapeChar(s[i]);
      out := out + EscapeChar(s[i]);
      i := i + 1;
    }
    assert s[i..] == "" && done + "" == done;
    out := out + "\"";
    Assoc(before, "\"", done);
    Assoc(before, "\"" + done, "\"");
  }

  method Stringify(before: string, v: Json, style: Style, level: nat) returns (out: string)
    ensures out == before + Print(v, style, level)
    decreases v, 2
  {
    match v
    case Null => out := before + "null";
    case Bool(b) => out := before + if b then "true" else "false";
    case Int64(i) => out := before + IntText(i);
    case Uint64(u) => out := before + NatText(u);
    case Double(d) => out := before + DoubleText(d);
    case Str(s) => out := EscapeString(before, s);
    case Arr(items) => out := StringifyArray(before, items, style, level);
    case Obj(fields) => out := StringifyObject(before, fields, style, level);
  }

  method StringifyArray(before: string, items: seq<Json>, style: Style, level: nat) returns (out: string)
    ensures out == before + PrintArray(items, style, level)
    decreases items, 2
  {
    out := before + "[";
    if items != [] {
      out := StringifyItems(out, items, style, level);
      Assoc(before, "[", PrintItems(items, style, level));
      out := AppendIndent(out, style, level);
      Assoc(before, "[" + PrintItems(items, style, level), NewLine(style, level));
      Assoc("[", PrintItems(items, style, level), NewLine(style, level));
    }
    ghost var body := BodyArray(items, style, level);
    assert out == before + ("[" + body);
    Assoc(before, "[" + body, "]");
    out := out + "]";
  }

  /** Appends one element, with the comma that follows it. */
  method AppendItem(before: string, items: seq<Json>, i: nat, style: Style, level: nat) returns (out: string)
    requires i < |items|
    ensures out == before + ItemStep(items, i, style, level)
    decreases items, 0
  {
    var indented := AppendIndent(before, style, level + 1);
    out := Stringify(indented, items[i], style, level + 1);
    ghost var line, body := NewLine(style, level + 1), Print(items[i], style, level + 1);
    Assoc(before, line, body);
    if i + 1 != |items| {
      out := out + ",";
      Assoc(before, line + body, ",");
    }
  }

  method StringifyItems(before: string, items: seq<Json>, style: Style, level: nat) returns (out: string)
    ensures out == before + PrintItems(items, style, level)
    decreases items, 1
  {
    out := before;
    ghost var done := "";
    var i := 0;
    assert items[0..] == items;
    while i < |items|
      invariant 0 <= i <= |items|
      invariant out == before + done
      invariant done + PrintItems(items[i..], style, level) == PrintItems(items, style, level)
    {
      out := AppendItem(out, items, i, style, level);
      ghost var step := ItemStep(items, i, style, level);
      ItemsStep(items, i, style, level);
      Assoc(done, step, PrintItems(items[i + 1..], style, level));
      Assoc(before, done, step);
      done := done + step;
      i := i + 1;
    }
    assert items[i..] == [] && done + "" == done;
  }

  method StringifyObject(before: string, fields: seq<Field>, style: Style, level: nat) returns (out: string)
    ensures out == before + PrintObject(fields, style, level)
    decreases fields, 2
  {
    out := before + "{";
    if fields != [] {
      out := StringifyFields(out, fields, style, level);
      Assoc(before, "{", PrintFields(fields, style, level));
      out := AppendIndent(out, style, level);
      Assoc(before, "{" + PrintFields(fields, style, level), NewLine(style, level));
      Assoc("{", PrintFields(fields, style, level), NewLine(style, level));
    }
    ghost var body := BodyObject(fields, style, level);
    assert out == before + ("{" + body);
    Assoc(before, "{" + body, "}");
    out := out + "}";
  }

  /** Appends one element, with the comma that follows it. */
  method AppendField(before: string, fields: seq<Field>, i: nat, style: Style, level: nat) returns (out: string)
    requires i < |fields|
    ensures out == before + FieldStep(fields, i, style, level)
    decreases fields, 0
  {
    var indented := AppendIndent(before, style, level + 1);
    out := StringifyField(indented, fields[i], style, level);
    ghost var line, body := NewLine(style, level + 1), PrintField(fields[i], style, level);
    Assoc(before, line, body);
    if i + 1 != |fields| {
      out := out + ",";
      Assoc(before, line + body, ",");
    }
  }

  method StringifyFields(before: string, fields: seq<Field>, style: Style, level: nat) returns (out: string)
    ensures out == before + PrintFields(fields, style, level)
    decreases fields, 1
  {
    out := before;
    ghost var done := "";
    var i := 0;
    assert fields[0..] == fields;
    while i < |fields|
      invariant 0 <= i <= |fields|
      invariant out == before + done
      invariant done + PrintFields(fields[i..], style, level) == PrintFields(fields, style, level)
    {
      out := AppendField(out, fields, i, style, level);
      ghost var step := FieldStep(fields, i, style, level);
      FieldsStep(fields, i, style, level);
      Assoc(done, step, PrintFields(fields[i + 1..], style, level));
      Assoc(before, done, step);
      done := done + step;
      i := i + 1;
    }
    assert fields[i..] == [] && done + "" == done;
  }

  method StringifyField(before: string, field: Field, style: Style, level: nat) returns (out: string)
    ensures out == before + PrintField(field, style, level)
    decreases field, 0
  {
    out := EscapeString(before, field.key);
    Assoc(before, Escape(field.key), ":");
    out := out + ":";
    if style.pretty {
      Assoc(before, Escape(field.key) + ":", " ");
      out := out + " ";
    }
    ghost var colon := if style.pretty then ": " else ":";
    assert out == before + (Escape(field.key) + colon);
    Assoc(before, Escape(field.key) + colon, Print(field.value, style, level + 1));
    out := Stringify(out, field.value, style, level + 1);
  }

  lemma Tail(s: string, i: nat, j: nat)
    requires i <= j <= |s|
    ensures s[i..][j - i..] == s[j..]
  {
  }

  lemma TokenOf(s: string, i: nat, j: nat)
    requires i <= j <= |s|
    ensures s[i..][..j - i] == s[i..j]
  {
  }

  lemma NumberRead(s: string, token: string, isFloat: bool, r: Result<Json, JsonError>)
    requires ScanNumber(s) == Ok((|token|, isFloat)) && s[..|token|] == token && NumberOf(token, isFloat) == r
    ensures ParseNumber(s) == if r.Ok? then Ok((r.value, s[|token|..])) else Err(r.error)
  {
  }

  class Parser {
    const text: string
    var pos: nat

    ghost predicate Valid()
      reads this
    {
      pos <= |text|
    }

    /** The text not read yet. */
    ghost function Rest(): string
      reads this
      requires Valid()
    {
      text[pos..]
    }

    constructor (text: string)
      ensures this.text == text && Valid() && Rest() == text
    {
      this.text := text;
      pos := 0;
    }

    function PeekChar(): (c: char)
      reads this
      requires Valid()
      ensures c == Peek(Rest())
    {
      if pos >= |text| then '\0' else text[pos]
    }

    /** The outcome `r` and the position agree with what parsing the old rest gives. */
    ghost predicate Reads<T>(spec: Parse<T>, r: Result<T, JsonError>)
      reads this
      requires Valid()
    {
      match spec
      case Ok((v, rest)) => r == Ok(v) && Rest() == rest
      case Err(e) => r == Err(e)
    }

    method Next() returns (r: Result<char, JsonError>)
      requires Valid()
      modifies this`pos
      ensures Valid()
      ensures if old(Rest()) == "" then r == Err(UnexpectedEnd) && pos == old(pos)
              else r == Ok(old(Rest())[0]) && pos == old(pos) + 1 && Rest() == old(Rest())[1..]
    {
      if pos >= |text| {
        return Err(UnexpectedEnd);
      }
      r := Ok(text[pos]);
      pos := pos + 1;
    }

    method SkipBlanks()
      requires Valid()
      modifies this`pos
      ensures Valid() && old(pos) <= pos && Rest() == SkipWs(old(Rest()))
    {
      while pos < |text| && IsSpace(text[pos])
        invariant Valid() && old(pos) <= pos
        invariant SkipWs(Rest()) == SkipWs(old(Rest()))
        decreases |text| - pos
      {
        assert text[pos..][1..] == text[pos + 1..];
        pos := pos + 1;
      }
    }

    method ReadLiteral(literal: string) returns (r: Result<(), JsonError>)
      requires Valid()
      modifies this`pos
      ensures Valid() && old(pos) <= pos
      ensures match ParseLiteral(old(Rest()), literal)
              case Ok(rest) => r == Ok(()) && Rest() == rest
              case Err(e) => r == Err(e)
    {
      var i := 0;
      assert literal[0..] == literal;
      while i < |literal|
        invariant Valid() && old(pos) <= pos && 0 <= i <= |literal|
        invariant ParseLiteral(Rest(), literal[i..]) == ParseLiteral(old(Rest()), literal)
      {
        var c :- Next();
        if c != literal[i] {
          return Err(InvalidLiteral);
        }
        assert literal[i..][1..] == literal[i + 1..];
        i := i + 1;
      }
      r := Ok(());
    }

    method ReadHex() returns (r: Result<(), JsonError>)
      requires Valid()
      modifies this`pos
      ensures Valid() && old(pos) <= pos
      ensures match ParseHex(old(Rest()), 4)
              case Ok(_) => r == Ok(()) && pos == old(pos) + 4
              case Err(e) => r == Err(e)
    {
      var i := 0;
      while i < 4
        invariant Valid() && 0 <= i <= 4 && pos == old(pos) + i
        invariant ParseHex(Rest(), 4 - i) == ParseHex(old(Rest()), 4)
      {
        var h :- Next();
        if !IsHexDigit(h) {
          return Err(InvalidUnicodeEscape);
        }
        i := i + 1;
      }
      r := Ok(());
    }

    method ReadEscape() returns (r: Result<string, JsonError>)
      requires Valid()
      modifies this`pos
      ensures Valid() && old(pos) <= pos
      ensures Reads(ParseEscape(old(Rest())), r)
    {
      ghost var s := Rest();
      var esc :- Next();
      if esc == 'u' {
        var _ :- ReadHex();
        assert text[pos - 4..pos] == s[1..5] && text[pos..] == s[5..];
        return Ok("\\u" + text[pos - 4..pos]);
      }
      match Unescape(esc)
      case Some(plain) => r := Ok([plain]);
      case None => r := Err(InvalidStringEscape);
    }

    method ReadString() returns (r: Result<string, JsonError>)
      requires Valid()
      modifies this`pos
      ensures Valid() && old(pos) <= pos
      ensures Reads(ParseString(old(Rest())), r)
    {
      var quote :- Next();
      if quote != '"' {
        return Err(ExpectedString);
      }
      var out := "";
      while pos < |text|
        invariant Valid() && old(pos) < pos
        invariant ParseChars(Rest(), out) == ParseString(old(Rest()))
        decreases |text| - pos
      {
        assert text[pos..][1..] == text[pos + 1..];
        var c := text[pos];
        pos := pos + 1;
        if c == '"' {
          return Ok(out);
        }
        if c == '\\' {
          var plain :- ReadEscape();
          out := out + plain;
        } else {
          out := out + [c];
        }
      }
      r := Err(UnterminatedString);
    }

    method SkipDigits()
      requires Valid()
      modifies this`pos
      ensures Valid() && pos == old(pos) + DigitRun(old(Rest()))
    {
      while pos < |text| && IsDigit(text[pos])
        invariant Valid() && old(pos) <= pos
        invariant pos + DigitRun(Rest()) == old(pos) + DigitRun(old(Rest()))
        decreases |text| - pos
      {
        assert text[pos..][1..] == text[pos + 1..];
        pos := pos + 1;
      }
    }

    method ReadInteger() returns (r: Result<(), JsonError>)
      requires Valid()
      modifies this`pos
      ensures Valid() && old(pos) <= pos
      ensures match ScanInteger(old(Rest()))
              case Ok(n) => r == Ok(()) && pos == old(pos) + n
              case Err(e) => r == Err(e)
    {
      ghost var s := Rest();
      if PeekChar() == '-' {
        pos := pos + 1;
        assert Rest() == s[1..];
      } else {
        assert Rest() == s[0..];
      }
      if PeekChar() == '0' {
        pos := pos + 1;
      } else {
        if !IsDigit(PeekChar()) {
          return Err(InvalidNumber);
        }
        SkipDigits();
      }
      r := Ok(());
    }

    method ReadFraction(ghost s: string, ghost n: nat) returns (r: Result<(), JsonError>)
      requires Valid() && n <= |s| && Rest() == s[n..]
      modifies this`pos
      ensures Valid() && old(pos) <= pos
      ensures var spec := ScanFraction(s, n);
              if spec.Ok? then r == Ok(()) && pos == old(pos) + (spec.value - n) else r == Err(spec.error)
    {
      if PeekChar() == '.' {
        pos := pos + 1;
        assert Rest() == s[|s| - |Rest()|..];
        if !IsDigit(PeekChar()) {
          return Err(InvalidNumber);
        }
        SkipDigits();
      }
      r := Ok(());
    }

    method ReadExponent(ghost s: string, ghost n: nat) returns (r: Result<(), JsonError>)
      requires Valid() && n <= |s| && Rest() == s[n..]
      modifies this`pos
      ensures Valid() && old(pos) <= pos
      ensures var spec := ScanExponent(s, n);
              if spec.Ok? then r == Ok(()) && pos == old(pos) + (spec.value - n) else r == Err(spec.error)
    {
      if PeekChar() == 'e' || PeekChar() == 'E' {
        pos := pos + 1;
        assert Rest() == s[|s| - |Rest()|..];
        if PeekChar() == '+' || PeekChar() == '-' {
          pos := pos + 1;
          assert Rest() == s[|s| - |Rest()|..];
        }
        if !IsDigit(PeekChar()) {
          return Err(InvalidNumber);
        }
        SkipDigits();
      }
      r := Ok(());
    }

    method ReadNumber() returns (r: Result<Json, JsonError>)
      requires Valid()
      modifies this`pos
      ensures Valid() && old(pos) <= pos
      ensures Reads(ParseNumber(old(Rest())), r)
    {
      ghost var s := Rest();
      var start := pos;
      var isFloat :- ReadToken(s);
      Tail(text, start, pos);
      TokenOf(text, start, pos);
      r := NumberOf(text[start..pos], isFloat);
      NumberRead(s, text[start..pos], isFloat, r);
    }

    /** The token at the start of the rest `s`. */
    method ReadToken(ghost s: string) returns (r: Result<bool, JsonError>)
      requires Valid() && s == Rest()
      modifies this`pos
      ensures Valid() && old(pos) <= pos
      ensures ScanNumber(s).Ok? ==> r == Ok(ScanNumber(s).value.1) && pos == old(pos) + ScanNumber(s).value.0
      ensures ScanNumber(s).Err? ==> r == Err(ScanNumber(s).error)
    {
      var start := pos;
      var _ :- ReadInteger();
      ghost var n := pos - start;
      Tail(text, start, pos);
      r := ReadRest(s, n);
    }

    /** The optional fraction and exponent after the `n` characters of an integer. */
    method ReadRest(ghost s: string, ghost n: nat) returns (r: Result<bool, JsonError>)
      requires Valid() && n <= |s| && Rest() == s[n..] && pos >= n && s == text[pos - n..]
      requires ScanInteger(s) == Ok(n)
      modifies this`pos
      ensures Valid() && old(pos) <= pos
      ensures ScanNumber(s).Ok? ==> r == Ok(ScanNumber(s).value.1) && pos == old(pos) - n + ScanNumber(s).value.0
      ensures ScanNumber(s).Err? ==> r == Err(ScanNumber(s).error)
    {
      var integerEnd := pos;
      ghost var start := pos - n;
      var _ :- ReadFraction(s, n);
      Tail(text, start, pos);
      var _ :- ReadExponent(s, pos - start);
      r := Ok(pos > integerEnd);
    }

    method ReadValue() returns (r: Result<Json, JsonError>)
      requires Valid()
      modifies this`pos
      ensures Valid() && old(pos) <= pos
      ensures Reads(ParseValue(old(Rest())), r)
      decreases |text| - pos, 0
    {
      if pos >= |text| {
        return Err(UnexpectedEnd);
      }
      var c := PeekChar();
      if c == 'n' {
        var _ :- ReadLiteral("null");
        r := Ok(Null);
      } else if c == 't' {
        var _ :- ReadLiteral("true");
        r := Ok(Bool(true));
      } else if c == 'f' {
        var _ :- ReadLiteral("false");
        r := Ok(Bool(false));
      } else if c == '"' {
        var s :- ReadString();
        r := Ok(Str(s));
      } else if c == '[' {
        pos := pos + 1;
        var items :- ReadArray();
        r := Ok(Arr(items));
      } else if c == '{' {
        pos := pos + 1;
        var fields :- ReadObject();
        r := Ok(Obj(fields));
      } else if c == '-' || IsDigit(c) {
        r := ReadNumber();
      } else {
        r := Err(UnexpectedToken);
      }
    }

    method ReadArray() returns (r: Result<seq<Json>, JsonError>)
      requires Valid()
      modifies this`pos
      ensures Valid() && old(pos) <= pos
      ensures Reads(ParseArray(old(Rest())), r)
      decreases |text| - pos, 1
    {
      SkipBlanks();
      if PeekChar() == ']' {
        pos := pos + 1;
        return Ok([]);
      }
      var out := [];
      while true
        invariant Valid() && old(pos) <= pos
        invariant ParseItems(Rest(), out) == ParseArray(old(Rest()))
        decreases |text| - pos
      {
        SkipBlanks();
        var v :- ReadValue();
        out := out + [v];
        SkipBlanks();
        var c :- Next();
        if c == ']' {
          return Ok(out);
        }
        if c != ',' {
          return Err(ArrayDelimiter);
        }
      }
    }

    method ReadKey() returns (r: Result<string, JsonError>)
      requires Valid()
      modifies this`pos
      ensures Valid() && old(pos) <= pos
      ensures Reads(ParseKey(old(Rest())), r)
    {
      SkipBlanks();
      if PeekChar() != '"' {
        return Err(ExpectedKey);
      }
      var key :- ReadString();
      SkipBlanks();
      var c :- Next();
      if c != ':' {
        return Err(ExpectedColon);
      }
      SkipBlanks();
      r := Ok(key);
    }

    method ReadObject() returns (r: Result<seq<Field>, JsonError>)
      requires Valid()
      modifies this`pos
      ensures Valid() && old(pos) <= pos
      ensures Reads(ParseObject(old(Rest())), r)
      decreases |text| - pos, 1
    {
      SkipBlanks();
      if PeekChar() == '}' {
        pos := pos + 1;
        return Ok([]);
      }
      var out := [];
      while true
        invariant Valid() && old(pos) <= pos
        invariant ParseMembers(Rest(), out) == ParseObject(old(Rest()))
        decreases |text| - pos
      {
        var key :- ReadKey();
        var v :- ReadValue();
        out := Emplace(out, key, v);
        SkipBlanks();
        var c :- Next();
        if c == '}' {
          return Ok(out);
        }
        if c != ',' {
          return Err(ObjectDelimiter);
        }
      }
    }

    method ReadDocument() returns (r: Result<Json, JsonError>)
      requires Valid() && pos == 0
      modifies this`pos
      ensures Valid()
      ensures r == ParseJson(text)
    {
      assert Rest() == text;
      SkipBlanks();
      var v :- ReadValue();
      SkipBlanks();
      if pos < |text| {
        return Err(TrailingData);
      }
      r := Ok(v);
    }
  }
}
