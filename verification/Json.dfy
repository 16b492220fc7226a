/** JSON values, their text, and what the parser makes of a text. */
module Json {
  import opened Machine
  import Doubles

  // ---- Values ----

  /** An object is the key-ordered content of a `std::map`. */
  datatype Json =
    | Null
    | Bool(b: bool)
    | Int64(i: i64)
    | Uint64(u: u64)
    | Double(d: Doubles.Binary64)
    | Str(s: string)
    | Arr(items: seq<Json>)
    | Obj(fields: seq<Field>)

  datatype Field = Field(key: string, value: Json)

  datatype JsonError =
    | UnexpectedEnd
    | UnexpectedToken
    | TrailingData
    | InvalidLiteral
    | ExpectedString
    | UnterminatedString
    | InvalidStringEscape
    | InvalidUnicodeEscape
    | InvalidNumber
    | InvalidSigned
    | InvalidUnsigned
    | ArrayDelimiter
    | ExpectedKey
    | ExpectedColon
    | ObjectDelimiter

  /** The byte-wise order of `std::less<std::string>`. */
  predicate Less(a: string, b: string) {
    if b == "" then false
    else if a == "" then true
    else if a[0] == b[0] then Less(a[1..], b[1..])
    else a[0] < b[0]
  }

  ghost predicate Sorted(fields: seq<Field>) {
    forall i, j :: 0 <= i < j < |fields| ==> Less(fields[i].key, fields[j].key)
  }

  /** `std::map::emplace`: the first value given for a key stays. */
  function Emplace(fields: seq<Field>, key: string, value: Json): seq<Field> {
    if fields == [] then [Field(key, value)]
    else if key == fields[0].key then fields
    else if Less(key, fields[0].key) then [Field(key, value)] + fields
    else [fields[0]] + Emplace(fields[1..], key, value)
  }

  function Find(fields: seq<Field>, key: string): Option<Json> {
    if fields == [] then None
    else if fields[0].key == key then Some(fields[0].value)
    else Find(fields[1..], key)
  }

  // ---- Text of a value ----

  datatype Style = Style(pretty: bool, indent: nat)

  function Spaces(n: nat): (s: string)
    ensures |s| == n && forall i :: 0 <= i < n ==> s[i] == ' '
  {
    seq(n, _ => ' ')
  }

  function NewLine(style: Style, level: nat): string {
    if style.pretty then "\n" + Spaces(level * style.indent) else ""
  }

  function NatText(n: nat): string {
    if n < 10 then [DecimalDigit(n)] else NatText(n / 10) + [DecimalDigit(n % 10)]
  }

  function DecimalDigit(d: nat): (c: char)
    requires d < 10
    ensures '0' <= c <= '9' && DecimalValue(c) == d
  {
    ('0' as int + d) as char
  }

  function DecimalValue(c: char): nat
    requires '0' <= c <= '9'
  {
    c as int - '0' as int
  }

  function IntText(i: int): string {
    if i < 0 then "-" + NatText(-i) else NatText(i)
  }

  /** The last `len` decimal digits. */
  function DigitsText(n: nat, len: nat): (s: string)
    ensures |s| == len
  {
    if len == 0 then "" else DigitsText(n / 10, len - 1) + [DecimalDigit(n % 10)]
  }

  function DropZeros(s: string): (r: string)
    ensures |r| <= |s|
  {
    if s != "" && s[|s| - 1] == '0' then DropZeros(s[..|s| - 1]) else s
  }

  function Zeros(n: nat): string {
    seq(n, _ => '0')
  }

  function ExponentText(x: int): string {
    "e" + (if x < 0 then "-" else "+") + (if -10 < x < 10 then "0" else "") + NatText(if x < 0 then -x else x)
  }

  /** A number as it is written; `fraction` are the digits after the point, `exponent` starts with its letter. */
  datatype Numeral = Numeral(negative: bool, whole: string, fraction: string, exponent: string)

  function NumeralText(n: Numeral): string {
    (if n.negative then "-" else "") + n.whole + (if n.fraction == "" then "" else "." + n.fraction) + n.exponent
  }

  /** `%g` of sixteen significant digits, of which the first stands for ten to the power `x`. */
  function Significant(negative: bool, s: string, x: int): Numeral
    requires |s| == 16
  {
    if x < -4 || x >= 16 then Numeral(negative, s[..1], DropZeros(s[1..]), ExponentText(x))
    else if x < 0 then Numeral(negative, "0", DropZeros(Zeros(-x - 1) + s), "")
    else Numeral(negative, s[..x + 1], DropZeros(s[x + 1..]), "")
  }

  function PrintedNumeral(d: Doubles.Binary64): Numeral {
    if d.units == 0 then Numeral(d.negative, "0", "", "")
    else
      var (m, x) := Doubles.Sixteen(d.units);
      Significant(d.negative, DigitsText(m, 16), x)
  }

  function DoubleText(d: Doubles.Binary64): string {
    NumeralText(PrintedNumeral(d))
  }

  function HexDigit(d: nat): char
    requires d < 16
  {
    if d < 10 then ('0' as int + d) as char else ('A' as int + (d - 10)) as char
  }

  /** A control character without a named escape. */
  predicate BadControl(c: char) {
    c < ' ' && c !in [BACKSPACE, FORM_FEED, '\n', '\r', '\t']
  }

  const BACKSPACE: char := '\U{0008}'
  const FORM_FEED: char := '\U{000C}'

  function UnicodeEscape(c: char): string
    requires c < ' '
  {
    "\\u00" + [HexDigit(c as int / 16), HexDigit(c as int % 16)]
  }

  function EscapeChar(c: char): string {
    if c == '"' then "\\\""
    else if c == '\\' then "\\\\"
    else if c == BACKSPACE then "\\b"
    else if c == FORM_FEED then "\\f"
    else if c == '\n' then "\\n"
    else if c == '\r' then "\\r"
    else if c == '\t' then "\\t"
    else if c < ' ' then UnicodeEscape(c)
    else [c]
  }

  function EscapeChars(s: string): string {
    if s == "" then "" else EscapeChar(s[0]) + EscapeChars(s[1..])
  }

  function Escape(s: string): string {
    "\"" + EscapeChars(s) + "\""
  }

  function Print(v: Json, style: Style, level: nat): string
    decreases v, 3
  {
    match v
    case Null => "null"
    case Bool(b) => if b then "true" else "false"
    case Int64(i) => IntText(i)
    case Uint64(u) => NatText(u)
    case Double(d) => DoubleText(d)
    case Str(s) => Escape(s)
    case Arr(items) => PrintArray(items, style, level)
    case Obj(fields) => PrintObject(fields, style, level)
  }

  function PrintArray(items: seq<Json>, style: Style, level: nat): string
    decreases items, 2
  {
    "[" + BodyArray(items, style, level) + "]"
  }

  function BodyArray(items: seq<Json>, style: Style, level: nat): string
    decreases items, 1
  {
    if items == [] then "" else PrintItems(items, style, level) + NewLine(style, level)
  }

  function PrintObject(fields: seq<Field>, style: Style, level: nat): string
    decreases fields, 2
  {
    "{" + BodyObject(fields, style, level) + "}"
  }

  function BodyObject(fields: seq<Field>, style: Style, level: nat): string
    decreases fields, 1
  {
    if fields == [] then "" else PrintFields(fields, style, level) + NewLine(style, level)
  }

  function PrintItems(items: seq<Json>, style: Style, level: nat): string
    decreases items, 0
  {
    if items == [] then ""
    else
      NewLine(style, level + 1) + Print(items[0], style, level + 1)
      + (if |items| > 1 then "," else "") + PrintItems(items[1..], style, level)
  }

  function PrintFields(fields: seq<Field>, style: Style, level: nat): string
    decreases fields, 0
  {
    if fields == [] then ""
    else
      NewLine(style, level + 1) + PrintField(fields[0], style, level)
      + (if |fields| > 1 then "," else "") + PrintFields(fields[1..], style, level)
  }

  function PrintField(field: Field, style: Style, level: nat): string
    decreases field, 0
  {
    Escape(field.key) + (if style.pretty then ": " else ":") + Print(field.value, style, level + 1)
  }

  function ToJson(v: Json, style: Style): string {
    Print(v, style, 0)
  }

  // ---- Value of a text ----

  type Parse<+T> = Result<(T, string), JsonError>

  predicate IsDigit(c: char) {
    '0' <= c <= '9'
  }

  predicate IsHexDigit(c: char) {
    IsDigit(c) || 'a' <= c <= 'f' || 'A' <= c <= 'F'
  }

  function SkipWs(s: string): (rest: string)
    ensures |rest| <= |s|
  {
    if s != "" && IsSpace(s[0]) then SkipWs(s[1..]) else s
  }

  /** The next character, NUL at the end of the text. */
  function Peek(s: string): char {
    if s == "" then '\0' else s[0]
  }

  function ParseLiteral(s: string, literal: string): Result<string, JsonError> {
    if literal == "" then Ok(s)
    else if s == "" then Err(UnexpectedEnd)
    else if s[0] != literal[0] then Err(InvalidLiteral)
    else ParseLiteral(s[1..], literal[1..])
  }

  function ParseHex(s: string, count: nat): (r: Result<string, JsonError>)
    ensures r.Ok? <==> count <= |s| && forall i :: 0 <= i < count ==> IsHexDigit(s[i])
  {
    if count == 0 then Ok(s)
    else if s == "" then Err(UnexpectedEnd)
    else if !IsHexDigit(s[0]) then Err(InvalidUnicodeEscape)
    else ParseHex(s[1..], count - 1)
  }

  /** What a one-letter escape stands for. */
  function Unescape(c: char): Option<char> {
    if c == '"' || c == '\\' || c == '/' then Some(c)
    else if c == 'b' then Some(BACKSPACE)
    else if c == 'f' then Some(FORM_FEED)
    else if c == 'n' then Some('\n')
    else if c == 'r' then Some('\r')
    else if c == 't' then Some('\t')
    else None
  }

  /** What follows a backslash: the characters it adds to the string. Unicode escapes stay as they are. */
  function ParseEscape(s: string): (r: Parse<string>)
    ensures r.Ok? ==> |r.value.1| < |s|
  {
    if s == "" then Err(UnexpectedEnd)
    else if s[0] == 'u' then
      var checked := ParseHex(s[1..], 4);
      if checked.Ok? then Ok(("\\u" + s[1..5], s[5..])) else Err(checked.error)
    else match Unescape(s[0])
      case Some(c) => Ok(([c], s[1..]))
      case None => Err(InvalidStringEscape)
  }

  /** The characters up to the closing quote, appended to `out`. */
  function ParseChars(s: string, out: string): (r: Parse<string>)
    ensures r.Ok? ==> |r.value.1| < |s|
  {
    if s == "" then Err(UnterminatedString)
    else if s[0] == '"' then Ok((out, s[1..]))
    else if s[0] != '\\' then ParseChars(s[1..], out + [s[0]])
    else
      var (plain, rest) :- ParseEscape(s[1..]);
      ParseChars(rest, out + plain)
  }

  function ParseString(s: string): (r: Parse<string>)
    ensures r.Ok? ==> |r.value.1| < |s|
  {
    if s == "" then Err(UnexpectedEnd)
    else if s[0] != '"' then Err(ExpectedString)
    else ParseChars(s[1..], "")
  }

  function DigitRun(s: string): (n: nat)
    ensures n <= |s|
    ensures forall i :: 0 <= i < n ==> IsDigit(s[i])
  {
    if s != "" && IsDigit(s[0]) then 1 + DigitRun(s[1..]) else 0
  }

  function ScanInteger(s: string): (r: Result<nat, JsonError>)
    ensures r.Ok? ==> 0 < r.value <= |s|
  {
    var n := if Peek(s) == '-' then 1 else 0;
    if Peek(s[n..]) == '0' then Ok(n + 1)
    else if !IsDigit(Peek(s[n..])) then Err(InvalidNumber)
    else Ok(n + DigitRun(s[n..]))
  }

  function ScanFraction(s: string, n: nat): (r: Result<nat, JsonError>)
    requires n <= |s|
    ensures r.Ok? ==> n <= r.value <= |s|
  {
    if Peek(s[n..]) != '.' then Ok(n)
    else if !IsDigit(Peek(s[n + 1..])) then Err(InvalidNumber)
    else Ok(n + 1 + DigitRun(s[n + 1..]))
  }

  function ScanExponent(s: string, n: nat): (r: Result<nat, JsonError>)
    requires n <= |s|
    ensures r.Ok? ==> n <= r.value <= |s|
  {
    if Peek(s[n..]) != 'e' && Peek(s[n..]) != 'E' then Ok(n)
    else
      var m := if Peek(s[n + 1..]) == '+' || Peek(s[n + 1..]) == '-' then n + 2 else n + 1;
      if !IsDigit(Peek(s[m..])) then Err(InvalidNumber) else Ok(m + DigitRun(s[m..]))
  }

  /** Where the number at the start of `s` ends, and whether it has a fraction or an exponent. */
  function ScanNumber(s: string): (r: Result<(nat, bool), JsonError>)
    ensures r.Ok? ==> 0 < r.value.0 <= |s|
  {
    var integerEnd :- ScanInteger(s);
    var fractionEnd :- ScanFraction(s, integerEnd);
    var end :- ScanExponent(s, fractionEnd);
    Ok((end, end > integerEnd))
  }

  function DigitsValue(s: string): nat {
    if s == "" || !IsDigit(s[|s| - 1]) then 0
    else DigitsValue(s[..|s| - 1]) * 10 + DecimalValue(s[|s| - 1])
  }

  // ---- Literals with a fraction or an exponent ----

  /** The number that the digits of a text denote, other characters left out. */
  function LiteralDigits(s: string): nat {
    if s == "" then 0
    else if IsDigit(s[|s| - 1]) then LiteralDigits(s[..|s| - 1]) * 10 + DecimalValue(s[|s| - 1])
    else LiteralDigits(s[..|s| - 1])
  }

  /** Where one of two characters stands first, or the length. */
  function MarkAt(s: string, a: char, b: char): (n: nat)
    ensures n <= |s|
  {
    if s == "" || s[0] == a || s[0] == b then 0 else 1 + MarkAt(s[1..], a, b)
  }

  function Negative(s: string): bool {
    s != "" && s[0] == '-'
  }

  function LiteralExponent(s: string): int {
    if Negative(s) then 0 - LiteralDigits(s) else LiteralDigits(s)
  }

  /** How many digits follow the point. */
  function Places(s: string): nat {
    var point := MarkAt(s, '.', '.');
    if point < |s| then |s| - point - 1 else 0
  }

  /** The digits of a literal as one number, and the power of ten that they are multiplied by. */
  function Literal(token: string): (nat, int) {
    var mark := MarkAt(token, 'e', 'E');
    var exponent := if mark < |token| then LiteralExponent(token[mark + 1..]) else 0;
    (LiteralDigits(token[..mark]), exponent - Places(token[..mark]))
  }

  function LiteralDouble(token: string): Option<Doubles.Binary64> {
    Doubles.FromDecimal(Negative(token), Literal(token).0, Literal(token).1)
  }

  function InRange(d: Option<Doubles.Binary64>): Result<Json, JsonError> {
    match d
    case Some(d) => Ok(Double(d))
    case None => Err(InvalidNumber)
  }

  /** `std::from_chars` on the token that was scanned. */
  function NumberOf(token: string, isFloat: bool): Result<Json, JsonError> {
    if isFloat then InRange(LiteralDouble(token))
    else if Negative(token) then
      var n: int := DigitsValue(token[1..]);
      if n <= 0x8000_0000_0000_0000 then Ok(Int64(-n)) else Err(InvalidSigned)
    else
      var n := DigitsValue(token);
      if n < TWO_TO_THE_64 then Ok(Uint64(n)) else Err(InvalidUnsigned)
  }

  function ParseNumber(s: string): (r: Parse<Json>)
    ensures r.Ok? ==> |r.value.1| < |s|
  {
    var (end, isFloat) :- ScanNumber(s);
    var v :- NumberOf(s[..end], isFloat);
    Ok((v, s[end..]))
  }

  function ParseWord(s: string, literal: string, v: Json): (r: Parse<Json>)
    requires literal != ""
    ensures r.Ok? ==> |r.value.1| < |s|
  {
    LiteralShrinks(s, literal);
    var rest :- ParseLiteral(s, literal);
    Ok((v, rest))
  }

  lemma LiteralShrinks(s: string, literal: string)
    ensures ParseLiteral(s, literal).Ok? ==> |ParseLiteral(s, literal).value| == |s| - |literal|
  {
  }

  function ParseValue(s: string): (r: Parse<Json>)
    ensures r.Ok? ==> |r.value.1| < |s|
    decreases |s|, 0
  {
    if s == "" then Err(UnexpectedEnd)
    else if s[0] == 'n' then ParseWord(s, "null", Null)
    else if s[0] == 't' then ParseWord(s, "true", Bool(true))
    else if s[0] == 'f' then ParseWord(s, "false", Bool(false))
    else if s[0] == '"' then
      var (text, rest) :- ParseString(s);
      Ok((Str(text), rest))
    else if s[0] == '[' then
      var (items, rest) :- ParseArray(s[1..]);
      Ok((Arr(items), rest))
    else if s[0] == '{' then
      var (fields, rest) :- ParseObject(s[1..]);
      Ok((Obj(fields), rest))
    else if s[0] == '-' || IsDigit(s[0]) then ParseNumber(s)
    else Err(UnexpectedToken)
  }

  /** The text after `[`. */
  function ParseArray(s: string): (r: Parse<seq<Json>>)
    ensures r.Ok? ==> |r.value.1| < |s|
    decreases |s|, 2
  {
    var first := SkipWs(s);
    if Peek(first) == ']' then Ok(([], first[1..])) else ParseItems(first, [])
  }

  function ParseItems(s: string, out: seq<Json>): (r: Parse<seq<Json>>)
    ensures r.Ok? ==> |r.value.1| < |s|
    decreases |s|, 1
  {
    var (v, afterValue) :- ParseValue(SkipWs(s));
    var rest := SkipWs(afterValue);
    if rest == "" then Err(UnexpectedEnd)
    else if rest[0] == ']' then Ok((out + [v], rest[1..]))
    else if rest[0] != ',' then Err(ArrayDelimiter)
    else ParseItems(rest[1..], out + [v])
  }

  /** The text after `{`. */
  function ParseObject(s: string): (r: Parse<seq<Field>>)
    ensures r.Ok? ==> |r.value.1| < |s|
    decreases |s|, 2
  {
    var first := SkipWs(s);
    if Peek(first) == '}' then Ok(([], first[1..])) else ParseMembers(first, [])
  }

  function ParseMembers(s: string, out: seq<Field>): (r: Parse<seq<Field>>)
    ensures r.Ok? ==> |r.value.1| < |s|
    decreases |s|, 1
  {
    var (key, value) :- ParseKey(s);
    var (v, afterValue) :- ParseValue(value);
    var rest := SkipWs(afterValue);
    if rest == "" then Err(UnexpectedEnd)
    else if rest[0] == '}' then Ok((Emplace(out, key, v), rest[1..]))
    else if rest[0] != ',' then Err(ObjectDelimiter)
    else ParseMembers(rest[1..], Emplace(out, key, v))
  }

  /** A key, its colon and the blanks around them. */
  function ParseKey(s: string): (r: Parse<string>)
    ensures r.Ok? ==> |r.value.1| < |s|
  {
    var start := SkipWs(s);
    if Peek(start) != '"' then Err(ExpectedKey)
    else
      var (key, afterKey) :- ParseString(start);
      var colon := SkipWs(afterKey);
      if colon == "" then Err(UnexpectedEnd)
      else if colon[0] != ':' then Err(ExpectedColon)
      else Ok((key, SkipWs(colon[1..])))
  }

  function ParseJson(text: string): Result<Json, JsonError> {
    var (v, rest) :- ParseValue(SkipWs(text));
    if SkipWs(rest) == "" then Ok(v) else Err(TrailingData)
  }
}
