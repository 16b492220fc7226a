/** The language that the parser accepts, stated by syntax trees: RFC 8259, except that any character but a quote and a
    backslash may stand in a string and that blanks are those of the C locale. */
module Grammar {
  import opened Machine
  import opened Json
  import opened NumberRoundTrip

  // ---- Syntax trees ----

  /** What a string is made of: a character, an escape with one letter, or one with four hexadecimal digits. */
  datatype Piece = AsIs(c: char) | Named(c: char) | Coded(hex: string)

  /** `blank` stands between the brackets of an empty array or object. */
  datatype Tree =
    | Word(v: Json)
    | Number(n: Numeral)
    | Text(pieces: seq<Piece>)
    | Array(blank: string, items: seq<Item>)
    | Object(blank: string, members: seq<Member>)

  datatype Item = Item(before: string, tree: Tree, after: string)

  datatype Member = Member(before: string, key: seq<Piece>, colon: Colon, tree: Tree, after: string)

  /** A colon and the blanks around it. */
  datatype Colon = Colon(before: string, after: string)

  datatype Document = Document(before: string, tree: Tree, after: string)

  // ---- Which trees are legal ----

  ghost predicate Blanks(s: string) {
    forall i :: 0 <= i < |s| ==> IsSpace(s[i])
  }

  ghost predicate LegalPiece(p: Piece) {
    match p
    case AsIs(c) => c != '"' && c != '\\'
    case Named(c) => Unescape(c).Some?
    case Coded(hex) => |hex| == 4 && forall i :: 0 <= i < 4 ==> IsHexDigit(hex[i])
  }

  ghost predicate LegalPieces(pieces: seq<Piece>) {
    forall p :: p in pieces ==> LegalPiece(p)
  }

  ghost predicate Legal(t: Tree) {
    match t
    case Word(v) => v.Null? || v.Bool?
    case Number(n) => Proper(n)
    case Text(pieces) => LegalPieces(pieces)
    case Array(blank, items) =>
      Blanks(blank) && (items != [] ==> blank == "") && forall item :: item in items ==> LegalItem(item)
    case Object(blank, members) =>
      Blanks(blank) && (members != [] ==> blank == "") && forall m :: m in members ==> LegalMember(m)
  }

  ghost predicate LegalItem(item: Item) {
    Blanks(item.before) && Legal(item.tree) && Blanks(item.after)
  }

  ghost predicate LegalMember(m: Member) {
    && Blanks(m.before) && LegalPieces(m.key) && Blanks(m.colon.before) && Blanks(m.colon.after)
    && Legal(m.tree) && Blanks(m.after)
  }

  ghost predicate LegalDocument(d: Document) {
    Blanks(d.before) && Legal(d.tree) && Blanks(d.after)
  }

  // ---- The text of a tree ----

  function PieceText(p: Piece): string {
    match p
    case AsIs(c) => [c]
    case Named(c) => ['\\', c]
    case Coded(hex) => "\\u" + hex
  }

  function PiecesText(pieces: seq<Piece>): string {
    if pieces == [] then "" else PieceText(pieces[0]) + PiecesText(pieces[1..])
  }

  function Quoted(pieces: seq<Piece>): string {
    "\"" + PiecesText(pieces) + "\""
  }

  function WordText(v: Json): string {
    match v
    case Null => "null"
    case Bool(b) => if b then "true" else "false"
    case _ => ""
  }

  function TreeText(t: Tree): string
    decreases t, 1
  {
    match t
    case Word(v) => WordText(v)
    case Number(n) => NumeralText(n)
    case Text(pieces) => Quoted(pieces)
    case Array(blank, items) => "[" + (blank + ItemsText(items)) + "]"
    case Object(blank, members) => "{" + (blank + MembersText(members)) + "}"
  }

  function ItemsText(items: seq<Item>): string
    decreases items, 0
  {
    if items == [] then ""
    else ItemText(items[0]) + ((if |items| > 1 then "," else "") + ItemsText(items[1..]))
  }

  function ItemText(item: Item): string
    decreases item, 0
  {
    item.before + (TreeText(item.tree) + item.after)
  }

  function MembersText(members: seq<Member>): string
    decreases members, 0
  {
    if members == [] then ""
    else MemberText(members[0]) + ((if |members| > 1 then "," else "") + MembersText(members[1..]))
  }

  function ColonText(colon: Colon): string {
    colon.before + (":" + colon.after)
  }

  function MemberText(m: Member): string
    decreases m, 0
  {
    m.before + (Quoted(m.key) + (ColonText(m.colon) + (TreeText(m.tree) + m.after)))
  }

  function DocumentText(d: Document): string {
    d.before + (TreeText(d.tree) + d.after)
  }

  // ---- The value of a tree ----

  function PieceMeaning(p: Piece): string {
    match p
    case AsIs(c) => [c]
    case Named(c) => if Unescape(c).Some? then [Unescape(c).value] else ""
    case Coded(hex) => "\\u" + hex
  }

  function PiecesMeaning(pieces: seq<Piece>): string {
    if pieces == [] then "" else PieceMeaning(pieces[0]) + PiecesMeaning(pieces[1..])
  }

  /** An error comes from a number out of range. */
  function Meaning(t: Tree): Result<Json, JsonError>
    decreases t, 1
  {
    match t
    case Word(v) => Ok(v)
    case Number(n) => Meant(n)
    case Text(pieces) => Ok(Str(PiecesMeaning(pieces)))
    case Array(_, items) =>
      var values :- ItemsMeaning(items, []);
      Ok(Arr(values))
    case Object(_, members) =>
      var fields :- MembersMeaning(members, []);
      Ok(Obj(fields))
  }

  function ItemsMeaning(items: seq<Item>, out: seq<Json>): Result<seq<Json>, JsonError>
    decreases items, 0
  {
    if items == [] then Ok(out)
    else
      var v :- ItemMeaning(items[0]);
      ItemsMeaning(items[1..], out + [v])
  }

  function ItemMeaning(item: Item): Result<Json, JsonError>
    decreases item, 0
  {
    Meaning(item.tree)
  }

  function MembersMeaning(members: seq<Member>, out: seq<Field>): Result<seq<Field>, JsonError>
    decreases members, 0
  {
    if members == [] then Ok(out)
    else
      var v :- MemberMeaning(members[0]);
      MembersMeaning(members[1..], Emplace(out, PiecesMeaning(members[0].key), v))
  }

  function MemberMeaning(m: Member): Result<Json, JsonError>
    decreases m, 0
  {
    Meaning(m.tree)
  }

  // ---- Every legal text is read as its tree means ----

  lemma {:induction false} BlanksSkipped(blank: string, t: string)
    requires Blanks(blank)
    ensures SkipWs(blank + t) == SkipWs(t)
  {
    if blank == "" {
      assert blank + t == t;
    } else {
      assert (blank + t)[1..] == blank[1..] + t;
      BlanksSkipped(blank[1..], t);
    }
  }

  lemma PieceParsed(p: Piece, rest: string, out: string)
    requires LegalPiece(p)
    ensures ParseChars(PieceText(p) + rest, out) == ParseChars(rest, out + PieceMeaning(p))
  {
    var s := PieceText(p) + rest;
    match p
    case AsIs(c) => assert s[1..] == rest;
    case Named(c) => assert s[1..][1..] == rest;
    case Coded(hex) =>
      var e := s[1..];
      assert e[1..] == hex + rest && e[5..] == rest && e[1..5] == hex;
  }

  lemma {:induction false} PiecesParsed(pieces: seq<Piece>, rest: string, out: string)
    requires LegalPieces(pieces)
    ensures ParseChars(PiecesText(pieces) + ("\"" + rest), out) == Ok((out + PiecesMeaning(pieces), rest))
  {
    var tail := "\"" + rest;
    if pieces == [] {
      assert "" + tail == tail && tail[1..] == rest && out + "" == out;
    } else {
      Assoc(PieceText(pieces[0]), PiecesText(pieces[1..]), tail);
      PieceParsed(pieces[0], PiecesText(pieces[1..]) + tail, out);
      PiecesParsed(pieces[1..], rest, out + PieceMeaning(pieces[0]));
      Assoc(out, PieceMeaning(pieces[0]), PiecesMeaning(pieces[1..]));
    }
  }

  /** Opening character, body, closing character: what is left after the opening one. */
  lemma Bracketed(open: string, body: string, close: string, rest: string)
    requires |open| == 1
    ensures open + body + close + rest == open + (body + (close + rest))
    ensures (open + body + close + rest)[1..] == body + (close + rest)
    ensures (open + body + close + rest)[0] == open[0]
  {
  }

  lemma QuotedParsed(pieces: seq<Piece>, rest: string)
    requires LegalPieces(pieces)
    ensures ParseString(Quoted(pieces) + rest) == Ok((PiecesMeaning(pieces), rest))
  {
    PiecesParsed(pieces, rest, "");
    Bracketed("\"", PiecesText(pieces), "\"", rest);
    assert "" + PiecesMeaning(pieces) == PiecesMeaning(pieces);
  }

  lemma {:induction false} WordIsParsed(literal: string, rest: string)
    ensures ParseLiteral(literal + rest, literal) == Ok(rest)
  {
    if literal == "" {
      assert literal + rest == rest;
    } else {
      WordIsParsed(literal[1..], rest);
      assert (literal + rest)[1..] == literal[1..] + rest;
    }
  }

  lemma WordParsed(v: Json, rest: string)
    requires v.Null? || v.Bool?
    ensures ParseValue(WordText(v) + rest) == Ok((v, rest))
  {
    WordIsParsed(WordText(v), rest);
    assert (WordText(v) + rest)[0] == WordText(v)[0];
  }

  /** A value starts with a character that is no blank and no closing bracket. */
  lemma TreeStarts(t: Tree)
    requires Legal(t)
    ensures TreeText(t) != "" && !IsSpace(TreeText(t)[0]) && TreeText(t)[0] !in [']', '}']
  {
    if t.Number? {
      HeadOf(t.n);
    }
  }

  lemma DropFirst(c: string, t: string)
    requires |c| == 1
    ensures (c + t)[1..] == t && (c + t)[0] == c[0]
  {
  }

  lemma {:induction false} TreeParsed(t: Tree, rest: string)
    requires Legal(t) && Terminated(rest)
    ensures ParseValue(TreeText(t) + rest) == Followed(Meaning(t), rest)
    decreases t, 2
  {
    match t
    case Word(v) => WordParsed(v, rest);
    case Number(n) => NumeralIsParsed(n, rest);
    case Text(pieces) =>
      QuotedParsed(pieces, rest);
      Bracketed("\"", PiecesText(pieces), "\"", rest);
    case Array(blank, items) =>
      ArrayParsed(blank, items, rest);
      ArrayIsParsed(blank, items, rest);
    case Object(blank, members) =>
      ObjectParsed(blank, members, rest);
      ObjectIsParsed(blank, members, rest);
  }

  lemma ArrayIsParsed(blank: string, items: seq<Item>, rest: string)
    requires ParseArray(blank + ItemsText(items) + ("]" + rest)) == Followed(ItemsMeaning(items, []), rest)
    ensures ParseValue(TreeText(Array(blank, items)) + rest) == Followed(Meaning(Array(blank, items)), rest)
  {
    Bracketed("[", blank + ItemsText(items), "]", rest);
  }

  lemma ObjectIsParsed(blank: string, members: seq<Member>, rest: string)
    requires ParseObject(blank + MembersText(members) + ("}" + rest)) == Followed(MembersMeaning(members, []), rest)
    ensures ParseValue(TreeText(Object(blank, members)) + rest) == Followed(Meaning(Object(blank, members)), rest)
  {
    Bracketed("{", blank + MembersText(members), "}", rest);
  }

  lemma ArrayParsed(blank: string, items: seq<Item>, rest: string)
    requires Legal(Array(blank, items))
    ensures ParseArray(blank + ItemsText(items) + ("]" + rest)) == Followed(ItemsMeaning(items, []), rest)
    decreases items, 1
  {
    var s := ItemsText(items) + ("]" + rest);
    Assoc(blank, ItemsText(items), "]" + rest);
    BlanksSkipped(blank, s);
    if items == [] {
      assert s == "]" + rest;
      DropFirst("]", rest);
    } else {
      ItemsParsed(items, rest, []);
      FirstItem(items, "]" + rest);
      SkippedItems(s, []);
    }
  }

  lemma SkipTwice(s: string)
    ensures SkipWs(SkipWs(s)) == SkipWs(s)
  {
  }

  lemma SkippedItems(s: string, out: seq<Json>)
    ensures ParseItems(SkipWs(s), out) == ParseItems(s, out)
  {
    SkipTwice(s);
  }

  /** The text after the first element. */
  function AfterItem(items: seq<Item>, end: string): string
    requires items != []
  {
    (if |items| > 1 then "," else "") + (ItemsText(items[1..]) + end)
  }

  lemma RegroupItem(a: string, b: string, c: string, d: string, e: string, f: string)
    ensures (a + (b + c) + (d + e)) + f == a + (b + (c + (d + (e + f))))
  {
  }

  /** Up to the first element, and from its end to the next delimiter. */
  lemma FirstItem(items: seq<Item>, end: string)
    requires items != [] && LegalItem(items[0]) && Terminated(end) && end != "" && !IsSpace(end[0])
    ensures var after := AfterItem(items, end);
            var value := TreeText(items[0].tree) + (items[0].after + after);
            && SkipWs(ItemsText(items) + end) == value && value[0] !in [']', '}']
            && Terminated(items[0].after + after) && SkipWs(items[0].after + after) == after
            && after == if |items| > 1 then "," + (ItemsText(items[1..]) + end) else end
  {
    var item := items[0];
    var after := AfterItem(items, end);
    var value := TreeText(item.tree) + (item.after + after);
    RegroupItem(item.before, TreeText(item.tree), item.after, if |items| > 1 then "," else "", ItemsText(items[1..]),
      end);
    BlanksSkipped(item.before, value);
    TreeStarts(item.tree);
    BlanksSkipped(item.after, after);
    if |items| == 1 {
      assert ItemsText(items[1..]) == "" && after == end;
    }
  }

  lemma {:induction false} ItemsParsed(items: seq<Item>, rest: string, out: seq<Json>)
    requires items != [] && forall item :: item in items ==> LegalItem(item)
    ensures ParseItems(ItemsText(items) + ("]" + rest), out) == Followed(ItemsMeaning(items, out), rest)
    decreases items, 0
  {
    var end := "]" + rest;
    var after := AfterItem(items, end);
    FirstItem(items, end);
    ItemParsed(items[0], items[0].after + after);
    DropFirst("]", rest);
    if |items| > 1 && ItemMeaning(items[0]).Ok? {
      DropFirst(",", ItemsText(items[1..]) + end);
      ItemsParsed(items[1..], rest, out + [ItemMeaning(items[0]).value]);
    }
  }

  lemma ItemParsed(item: Item, rest: string)
    requires LegalItem(item) && Terminated(rest)
    ensures ParseValue(TreeText(item.tree) + rest) == Followed(ItemMeaning(item), rest)
    decreases item, 0
  {
    TreeParsed(item.tree, rest);
  }

  lemma ObjectParsed(blank: string, members: seq<Member>, rest: string)
    requires Legal(Object(blank, members))
    ensures ParseObject(blank + MembersText(members) + ("}" + rest)) == Followed(MembersMeaning(members, []), rest)
    decreases members, 1
  {
    var s := MembersText(members) + ("}" + rest);
    Assoc(blank, MembersText(members), "}" + rest);
    BlanksSkipped(blank, s);
    if members == [] {
      assert s == "}" + rest;
      DropFirst("}", rest);
    } else {
      MembersParsed(members, rest, []);
      FirstMember(members, "}" + rest);
      SkippedMembers(s, []);
    }
  }

  lemma SkippedMembers(s: string, out: seq<Field>)
    ensures ParseMembers(SkipWs(s), out) == ParseMembers(s, out)
  {
    SkipTwice(s);
    assert ParseKey(SkipWs(s)) == ParseKey(s);
  }

  function AfterMember(members: seq<Member>, end: string): string
    requires members != []
  {
    (if |members| > 1 then "," else "") + (MembersText(members[1..]) + end)
  }

  lemma RegroupMember(a: string, q: string, k: string, b: string, c: string, d: string, e: string, f: string)
    ensures (a + (q + (k + (b + c))) + (d + e)) + f == a + (q + (k + (b + (c + (d + (e + f))))))
  {
  }

  /** From a member's key on. */
  function KeyOn(m: Member, rest: string): string {
    Quoted(m.key) + (ColonText(m.colon) + (TreeText(m.tree) + rest))
  }

  lemma FirstMember(members: seq<Member>, end: string)
    requires members != [] && LegalMember(members[0]) && Terminated(end) && end != "" && !IsSpace(end[0])
    ensures var after := AfterMember(members, end);
            var key := KeyOn(members[0], members[0].after + after);
            && SkipWs(MembersText(members) + end) == key && key[0] == '"'
            && Terminated(members[0].after + after) && SkipWs(members[0].after + after) == after
            && after == if |members| > 1 then "," + (MembersText(members[1..]) + end) else end
  {
    var m := members[0];
    var after := AfterMember(members, end);
    RegroupMember(m.before, Quoted(m.key), ColonText(m.colon), TreeText(m.tree), m.after,
      if |members| > 1 then "," else "", MembersText(members[1..]), end);
    BlanksSkipped(m.before, KeyOn(m, m.after + after));
    BlanksSkipped(m.after, after);
    if |members| == 1 {
      assert MembersText(members[1..]) == "" && after == end;
    }
  }

  lemma ColonParsed(colon: Colon, value: string)
    requires Blanks(colon.before) && Blanks(colon.after) && value != "" && !IsSpace(value[0])
    ensures var s := SkipWs(ColonText(colon) + value);
            s != "" && s[0] == ':' && SkipWs(s[1..]) == value
  {
    Assoc(colon.before, ":" + colon.after, value);
    Assoc(":", colon.after, value);
    BlanksSkipped(colon.before, ":" + (colon.after + value));
    DropFirst(":", colon.after + value);
    BlanksSkipped(colon.after, value);
  }

  lemma KeyParsed(s: string, m: Member, rest: string)
    requires LegalMember(m) && SkipWs(s) == KeyOn(m, rest)
    ensures ParseKey(s) == Ok((PiecesMeaning(m.key), TreeText(m.tree) + rest))
  {
    var value := TreeText(m.tree) + rest;
    TreeStarts(m.tree);
    QuotedParsed(m.key, ColonText(m.colon) + value);
    Bracketed("\"", PiecesText(m.key), "\"", ColonText(m.colon) + value);
    ColonParsed(m.colon, value);
  }

  lemma {:induction false} MembersParsed(members: seq<Member>, rest: string, out: seq<Field>)
    requires members != [] && forall m :: m in members ==> LegalMember(m)
    ensures ParseMembers(MembersText(members) + ("}" + rest), out) == Followed(MembersMeaning(members, out), rest)
    decreases members, 0
  {
    var end := "}" + rest;
    var after := AfterMember(members, end);
    FirstMember(members, end);
    KeyParsed(MembersText(members) + end, members[0], members[0].after + after);
    MemberParsed(members[0], members[0].after + after);
    DropFirst("}", rest);
    if |members| > 1 && MemberMeaning(members[0]).Ok? {
      DropFirst(",", MembersText(members[1..]) + end);
      MembersParsed(members[1..], rest, Emplace(out, PiecesMeaning(members[0].key), MemberMeaning(members[0]).value));
    }
  }

  lemma MemberParsed(m: Member, rest: string)
    requires LegalMember(m) && Terminated(rest)
    ensures ParseValue(TreeText(m.tree) + rest) == Followed(MemberMeaning(m), rest)
    decreases m, 0
  {
    TreeParsed(m.tree, rest);
  }

  /** Every legal document is read, and as its tree means. */
  lemma DocumentParsed(d: Document)
    requires LegalDocument(d)
    ensures ParseJson(DocumentText(d)) == Meaning(d.tree)
  {
    TreeParsed(d.tree, d.after);
    TreeStarts(d.tree);
    BlanksSkipped(d.before, TreeText(d.tree) + d.after);
    BlanksSkipped(d.after, "");
    assert d.after + "" == d.after;
  }
}
