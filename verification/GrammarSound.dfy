/** Whatever the parser accepts is a legal text: the parser accepts exactly the language of the grammar. */
module GrammarSound {
  import opened Machine
  import opened Json
  import opened NumberRoundTrip
  import opened Grammar

  lemma {:induction false} LeadingBlanks(s: string) returns (blank: string)
    ensures Blanks(blank) && s == blank + SkipWs(s)
  {
    blank := "";
    if s != "" && IsSpace(s[0]) {
      var more := LeadingBlanks(s[1..]);
      blank := [s[0]] + more;
      Assoc([s[0]], more, SkipWs(s));
    }
  }

  lemma {:induction false} LiteralRead(s: string, literal: string)
    requires ParseLiteral(s, literal).Ok?
    ensures s == literal + ParseLiteral(s, literal).value
  {
    if literal != "" {
      LiteralRead(s[1..], literal[1..]);
      assert s == [s[0]] + s[1..] && literal == [literal[0]] + literal[1..];
    }
  }

  lemma Prepended(p: Piece, pieces: seq<Piece>)
    ensures PiecesText([p] + pieces) == PieceText(p) + PiecesText(pieces)
    ensures PiecesMeaning([p] + pieces) == PieceMeaning(p) + PiecesMeaning(pieces)
    ensures LegalPiece(p) && LegalPieces(pieces) ==> LegalPieces([p] + pieces)
  {
    assert ([p] + pieces)[1..] == pieces;
  }

  /** The piece that an escape is, and what is left. */
  lemma EscapeRead(s: string) returns (p: Piece)
    requires ParseEscape(s).Ok?
    ensures LegalPiece(p) && "\\" + s == PieceText(p) + ParseEscape(s).value.1
    ensures PieceMeaning(p) == ParseEscape(s).value.0
  {
    if s[0] == 'u' {
      p := Coded(s[1..5]);
      assert s[1..][..4] == s[1..5];
      assert forall i :: 0 <= i < 4 ==> s[1..5][i] == s[1..][i];
      assert "\\" + s == ("\\u" + s[1..5]) + s[5..];
    } else {
      p := Named(s[0]);
      assert "\\" + s == ['\\', s[0]] + s[1..];
    }
  }

  lemma {:induction false} CharsRead(s: string, out: string) returns (pieces: seq<Piece>)
    requires ParseChars(s, out).Ok?
    ensures LegalPieces(pieces) && s == PiecesText(pieces) + ("\"" + ParseChars(s, out).value.1)
    ensures ParseChars(s, out).value.0 == out + PiecesMeaning(pieces)
    decreases |s|
  {
    var rest := ParseChars(s, out).value.1;
    if s[0] == '"' {
      pieces := [];
      assert s == "" + ("\"" + rest) && out + "" == out;
    } else {
      var p: Piece, more: seq<Piece>, left: string;
      if s[0] != '\\' {
        p := AsIs(s[0]);
        left := s[1..];
      } else {
        p := EscapeRead(s[1..]);
        left := ParseEscape(s[1..]).value.1;
        assert "\\" + s[1..] == s;
      }
      assert s == PieceText(p) + left;
      more := CharsRead(left, out + PieceMeaning(p));
      pieces := [p] + more;
      Prepended(p, more);
      Assoc(PieceText(p), PiecesText(more), "\"" + rest);
      Assoc(out, PieceMeaning(p), PiecesMeaning(more));
    }
  }

  lemma StringRead(s: string) returns (pieces: seq<Piece>)
    requires ParseString(s).Ok?
    ensures LegalPieces(pieces) && s == Quoted(pieces) + ParseString(s).value.1
    ensures ParseString(s).value.0 == PiecesMeaning(pieces)
  {
    pieces := CharsRead(s[1..], "");
    var rest := ParseString(s).value.1;
    assert s == "\"" + s[1..];
    Assoc("\"", PiecesText(pieces), "\"" + rest);
    Assoc("\"" + PiecesText(pieces), "\"", rest);
    assert "" + PiecesMeaning(pieces) == PiecesMeaning(pieces);
  }

  // ---- Numbers ----

  lemma IntegerRead(s: string) returns (negative: bool, whole: string)
    requires ScanInteger(s).Ok?
    ensures whole != "" && AllDigits(whole) && (whole[0] == '0' ==> whole == "0")
    ensures s[..ScanInteger(s).value] == (if negative then "-" else "") + whole
  {
    negative := Peek(s) == '-';
    var n := if negative then 1 else 0;
    var end := ScanInteger(s).value;
    whole := s[n..end];
    if Peek(s[n..]) != '0' {
      DigitsRead(s, n, DigitRun(s[n..]));
      assert DigitRun(s[n..]) > 0;
    }
  }

  lemma FractionRead(s: string, n: nat) returns (fraction: string)
    requires n <= |s| && ScanFraction(s, n).Ok?
    ensures AllDigits(fraction) && (fraction != "" <==> ScanFraction(s, n).value > n)
    ensures s[n..ScanFraction(s, n).value] == if fraction == "" then "" else "." + fraction
  {
    var end := ScanFraction(s, n).value;
    if end == n {
      fraction := "";
    } else {
      fraction := s[n + 1..end];
      DigitsRead(s, n + 1, DigitRun(s[n + 1..]));
      assert DigitRun(s[n + 1..]) > 0;
      assert s[n..][0] == '.';
    }
  }

  lemma ExponentRead(s: string, n: nat)
    requires n <= |s| && ScanExponent(s, n).Ok? && ScanExponent(s, n).value > n
    ensures ProperExponent(s[n..ScanExponent(s, n).value])
  {
    var end := ScanExponent(s, n).value;
    var m := if Peek(s[n + 1..]) == '+' || Peek(s[n + 1..]) == '-' then n + 2 else n + 1;
    var e := s[n..end];
    assert end == m + DigitRun(s[m..]) && DigitRun(s[m..]) > 0;
    assert e[0] == s[n..][0] && e[1] == s[n + 1..][0];
    DigitsRead(s, m, DigitRun(s[m..]));
    assert e[m - n..] == s[m..end];
  }

  lemma DigitsRead(s: string, m: nat, count: nat)
    requires m <= |s| && count == DigitRun(s[m..])
    ensures m + count <= |s| && AllDigits(s[m..m + count])
  {
    assert forall i :: 0 <= i < count ==> s[m..m + count][i] == s[m..][i];
  }

  lemma Joined(s: string, a: nat, b: nat, c: nat)
    requires a <= b <= c <= |s|
    ensures s[..c] == s[..a] + s[a..b] + s[b..c]
  {
  }

  /** A scanned token is a numeral. */
  lemma NumeralRead(s: string) returns (n: Numeral)
    requires ScanNumber(s).Ok?
    ensures Proper(n) && s[..ScanNumber(s).value.0] == NumeralText(n) && ScanNumber(s).value.1 == !Plain(n)
  {
    var a := ScanInteger(s).value;
    var b := ScanFraction(s, a).value;
    var c := ScanExponent(s, b).value;
    var negative, whole := IntegerRead(s);
    var fraction := FractionRead(s, a);
    if c > b {
      ExponentRead(s, b);
    }
    n := Numeral(negative, whole, fraction, s[b..c]);
    Joined(s, a, b, c);
  }

  lemma NumberRead(s: string) returns (n: Numeral)
    requires ParseNumber(s).Ok?
    ensures Proper(n) && s == NumeralText(n) + ParseNumber(s).value.1 && Meant(n) == Ok(ParseNumber(s).value.0)
  {
    n := NumeralRead(s);
    if Plain(n) {
      PlainOf(n);
    } else {
      FractionalOf(n);
    }
    var end := ScanNumber(s).value.0;
    assert s == s[..end] + s[end..];
  }

  // ---- Values ----

  lemma WordRead(s: string, literal: string, v: Json)
    requires literal != "" && ParseWord(s, literal, v).Ok?
    ensures s == literal + ParseWord(s, literal, v).value.1 && ParseWord(s, literal, v).value.0 == v
  {
    LiteralRead(s, literal);
  }

  /** The tree has the text before the rest, and means the value. */
  ghost predicate Reads(s: string, t: Tree, v: Json, rest: string) {
    Legal(t) && s == TreeText(t) + rest && Meaning(t) == Ok(v)
  }

  lemma ScalarRead(s: string) returns (t: Tree)
    requires ParseValue(s).Ok? && s[0] != '[' && s[0] != '{'
    ensures Reads(s, t, ParseValue(s).value.0, ParseValue(s).value.1)
  {
    if s[0] == 'n' {
      WordRead(s, "null", Null);
      t := Word(Null);
    } else if s[0] == 't' {
      WordRead(s, "true", Bool(true));
      t := Word(Bool(true));
    } else if s[0] == 'f' {
      WordRead(s, "false", Bool(false));
      t := Word(Bool(false));
    } else if s[0] == '"' {
      var pieces := StringRead(s);
      t := Text(pieces);
    } else {
      var n := NumberRead(s);
      t := Number(n);
    }
  }

  lemma {:induction false} ValueRead(s: string) returns (t: Tree)
    requires ParseValue(s).Ok?
    ensures Reads(s, t, ParseValue(s).value.0, ParseValue(s).value.1)
    decreases |s|, 0
  {
    if s[0] == '[' {
      t := ArrayRead(s[1..]);
      assert s == "[" + s[1..];
    } else if s[0] == '{' {
      t := ObjectRead(s[1..]);
      assert s == "{" + s[1..];
    } else {
      t := ScalarRead(s);
    }
  }

  lemma ClosedArray(s: string, blank: string, items: seq<Item>, rest: string, out: seq<Json>)
    requires s == blank + ItemsText(items) + ("]" + rest) && Legal(Array(blank, items))
    requires ItemsMeaning(items, []) == Ok(out)
    ensures Reads("[" + s, Array(blank, items), Arr(out), rest)
  {
  }

  lemma EmptyArrayRead(s: string) returns (t: Tree)
    requires Peek(SkipWs(s)) == ']'
    ensures Reads("[" + s, t, Arr([]), SkipWs(s)[1..])
  {
    var blank := LeadingBlanks(s);
    var rest := SkipWs(s)[1..];
    t := Array(blank, []);
    assert s == blank + "" + ("]" + rest);
    ClosedArray(s, blank, [], rest, []);
  }

  lemma ArrayRead(s: string) returns (t: Tree)
    requires ParseArray(s).Ok?
    ensures Reads("[" + s, t, Arr(ParseArray(s).value.0), ParseArray(s).value.1)
    decreases |s|, 2
  {
    if Peek(SkipWs(s)) == ']' {
      t := EmptyArrayRead(s);
    } else {
      SkippedItems(s, []);
      var items := ItemsRead(s, []);
      t := Array("", items);
      assert "" + ItemsText(items) == ItemsText(items);
      ClosedArray(s, "", items, ParseArray(s).value.1, ParseArray(s).value.0);
    }
  }

  lemma HeadAndRest(s: string)
    ensures s != "" ==> s == [s[0]] + s[1..]
  {
  }

  lemma LastItem(item: Item, s: string, rest: string)
    requires s == item.before + (TreeText(item.tree) + (item.after + ("]" + rest)))
    ensures s == ItemsText([item]) + ("]" + rest)
  {
    assert [item][1..] == [];
  }

  lemma NextItem(item: Item, more: seq<Item>, s: string, rest: string)
    requires more != []
    requires s == item.before + (TreeText(item.tree) + (item.after + ("," + (ItemsText(more) + ("]" + rest)))))
    ensures s == ItemsText([item] + more) + ("]" + rest)
  {
    assert ([item] + more)[1..] == more;
    RegroupItem(item.before, TreeText(item.tree), item.after, ",", ItemsText(more), "]" + rest);
  }

  lemma ItemsAppend(item: Item, more: seq<Item>, out: seq<Json>, v: Json)
    requires Meaning(item.tree) == Ok(v)
    ensures ItemsMeaning([item] + more, out) == ItemsMeaning(more, out + [v])
  {
    assert ([item] + more)[1..] == more;
  }

  lemma {:induction false} ItemsRead(s: string, out: seq<Json>) returns (items: seq<Item>)
    requires ParseItems(s, out).Ok?
    ensures items != [] && forall item :: item in items ==> LegalItem(item)
    ensures s == ItemsText(items) + ("]" + ParseItems(s, out).value.1)
    ensures ItemsMeaning(items, out) == Ok(ParseItems(s, out).value.0)
    decreases |s|, 1
  {
    var before := LeadingBlanks(s);
    var t := ValueRead(SkipWs(s));
    var (v, afterValue) := ParseValue(SkipWs(s)).value;
    var after := LeadingBlanks(afterValue);
    var next := SkipWs(afterValue);
    var item := Item(before, t, after);
    HeadAndRest(next);
    if next[0] == ']' {
      items := [item];
      LastItem(item, s, next[1..]);
      ItemsAppend(item, [], out, v);
      assert [item] + [] == [item];
    } else {
      var more := ItemsRead(next[1..], out + [v]);
      items := [item] + more;
      NextItem(item, more, s, ParseItems(s, out).value.1);
      ItemsAppend(item, more, out, v);
    }
  }

  lemma ClosedObject(s: string, blank: string, members: seq<Member>, rest: string, out: seq<Field>)
    requires s == blank + MembersText(members) + ("}" + rest) && Legal(Object(blank, members))
    requires MembersMeaning(members, []) == Ok(out)
    ensures Reads("{" + s, Object(blank, members), Obj(out), rest)
  {
  }

  lemma EmptyObjectRead(s: string) returns (t: Tree)
    requires Peek(SkipWs(s)) == '}'
    ensures Reads("{" + s, t, Obj([]), SkipWs(s)[1..])
  {
    var blank := LeadingBlanks(s);
    var rest := SkipWs(s)[1..];
    t := Object(blank, []);
    assert s == blank + "" + ("}" + rest);
    ClosedObject(s, blank, [], rest, []);
  }

  lemma ObjectRead(s: string) returns (t: Tree)
    requires ParseObject(s).Ok?
    ensures Reads("{" + s, t, Obj(ParseObject(s).value.0), ParseObject(s).value.1)
    decreases |s|, 2
  {
    if Peek(SkipWs(s)) == '}' {
      t := EmptyObjectRead(s);
    } else {
      SkippedMembers(s, []);
      var members := MembersRead(s, []);
      t := Object("", members);
      assert "" + MembersText(members) == MembersText(members);
      ClosedObject(s, "", members, ParseObject(s).value.1, ParseObject(s).value.0);
    }
  }

  /** A key, its colon and the blanks around them. */
  lemma KeyRead(s: string) returns (before: string, key: seq<Piece>, colon: Colon)
    requires ParseKey(s).Ok?
    ensures Blanks(before) && LegalPieces(key) && Blanks(colon.before) && Blanks(colon.after)
    ensures s == before + (Quoted(key) + (ColonText(colon) + ParseKey(s).value.1))
    ensures PiecesMeaning(key) == ParseKey(s).value.0
  {
    before := LeadingBlanks(s);
    var start := SkipWs(s);
    key := StringRead(start);
    var afterKey := ParseString(start).value.1;
    var beforeColon := LeadingBlanks(afterKey);
    var next := SkipWs(afterKey);
    var afterColon := LeadingBlanks(next[1..]);
    colon := Colon(beforeColon, afterColon);
    var value := SkipWs(next[1..]);
    assert next == ":" + (afterColon + value);
    Assoc(":", afterColon, value);
    Assoc(beforeColon, ":" + afterColon, value);
  }

  lemma LastMember(m: Member, s: string, rest: string)
    requires s == m.before + KeyOn(m, m.after + ("}" + rest))
    ensures s == MembersText([m]) + ("}" + rest)
  {
    assert [m][1..] == [];
    RegroupMember(m.before, Quoted(m.key), ColonText(m.colon), TreeText(m.tree), m.after, "", "", "}" + rest);
  }

  lemma NextMember(m: Member, more: seq<Member>, s: string, rest: string)
    requires more != []
    requires s == m.before + KeyOn(m, m.after + ("," + (MembersText(more) + ("}" + rest))))
    ensures s == MembersText([m] + more) + ("}" + rest)
  {
    assert ([m] + more)[1..] == more;
    RegroupMember(m.before, Quoted(m.key), ColonText(m.colon), TreeText(m.tree), m.after, ",", MembersText(more),
      "}" + rest);
  }

  lemma MembersAppend(m: Member, more: seq<Member>, out: seq<Field>, v: Json)
    requires Meaning(m.tree) == Ok(v)
    ensures MembersMeaning([m] + more, out) == MembersMeaning(more, Emplace(out, PiecesMeaning(m.key), v))
  {
    assert ([m] + more)[1..] == more;
  }

  lemma {:induction false} MembersRead(s: string, out: seq<Field>) returns (members: seq<Member>)
    requires ParseMembers(s, out).Ok?
    ensures members != [] && forall m :: m in members ==> LegalMember(m)
    ensures s == MembersText(members) + ("}" + ParseMembers(s, out).value.1)
    ensures MembersMeaning(members, out) == Ok(ParseMembers(s, out).value.0)
    decreases |s|, 1
  {
    var before, key, colon := KeyRead(s);
    var (name, value) := ParseKey(s).value;
    var t := ValueRead(value);
    var (v, afterValue) := ParseValue(value).value;
    var after := LeadingBlanks(afterValue);
    var next := SkipWs(afterValue);
    var m := Member(before, key, colon, t, after);
    HeadAndRest(next);
    if next[0] == '}' {
      members := [m];
      LastMember(m, s, next[1..]);
      MembersAppend(m, [], out, v);
      assert [m] + [] == [m];
    } else {
      var more := MembersRead(next[1..], Emplace(out, name, v));
      members := [m] + more;
      NextMember(m, more, s, ParseMembers(s, out).value.1);
      MembersAppend(m, more, out, v);
    }
  }

  // ---- The language ----

  lemma DocumentRead(text: string) returns (d: Document)
    requires ParseJson(text).Ok?
    ensures LegalDocument(d) && DocumentText(d) == text && Meaning(d.tree) == Ok(ParseJson(text).value)
  {
    var before := LeadingBlanks(text);
    var t := ValueRead(SkipWs(text));
    var rest := ParseValue(SkipWs(text)).value.1;
    var after := LeadingBlanks(rest);
    d := Document(before, t, after);
    assert after + "" == after;
  }

  /** The parser accepts exactly the texts of legal documents whose numbers are in range, and gives what they mean. */
  lemma AcceptsExactly(text: string, v: Json)
    ensures ParseJson(text) == Ok(v)
       <==> exists d :: LegalDocument(d) && DocumentText(d) == text && Meaning(d.tree) == Ok(v)
  {
    if ParseJson(text) == Ok(v) {
      var d := DocumentRead(text);
    }
    if d :| LegalDocument(d) && DocumentText(d) == text && Meaning(d.tree) == Ok(v) {
      DocumentParsed(d);
    }
  }

  /** The grammar is not ambiguous. */
  lemma OneMeaning(d: Document, e: Document)
    requires LegalDocument(d) && LegalDocument(e) && DocumentText(d) == DocumentText(e)
    ensures Meaning(d.tree) == Meaning(e.tree)
  {
    DocumentParsed(d);
    DocumentParsed(e);
  }
}
