/** Printing and parsing undo each other, and exactly when. */
module JsonRoundTrip {
  import opened Machine
  import opened Json
  import opened NumberRoundTrip
  import opened Grammar

  // ---- What a value comes back as ----

  /** No double whose sixteen digits round to a number out of range. */
  ghost predicate Readable(v: Json) {
    match v
    case Double(d) => Reread(d).Ok?
    case Arr(items) => AllReadable(items)
    case Obj(fields) => FieldsReadable(fields)
    case _ => true
  }

  ghost predicate AllReadable(items: seq<Json>) {
    forall item :: item in items ==> Readable(item)
  }

  ghost predicate FieldsReadable(fields: seq<Field>) {
    forall field :: field in fields ==> Readable(field.value)
  }

  function KeptChar(c: char): string {
    if BadControl(c) then UnicodeEscape(c) else [c]
  }

  /** The string that comes back: unicode escapes are not decoded. */
  function Kept(s: string): string {
    if s == "" then "" else KeptChar(s[0]) + Kept(s[1..])
  }

  /** The value that comes back. */
  function Norm(v: Json): Json
    decreases v, 1
  {
    match v
    case Int64(i) => if i >= 0 then Uint64(i) else v
    case Double(d) => if Reread(d).Ok? then Reread(d).value else v
    case Str(s) => Str(Kept(s))
    case Arr(items) => Arr(NormItems(items))
    case Obj(fields) => Obj(NormFields(fields, []))
    case _ => v
  }

  function NormItems(items: seq<Json>): seq<Json>
    decreases items, 0
  {
    if items == [] then [] else [Norm(items[0])] + NormItems(items[1..])
  }

  function NormFields(fields: seq<Field>, out: seq<Field>): seq<Field>
    decreases fields, 0
  {
    if fields == [] then out
    else NormFields(fields[1..], Emplace(out, Kept(fields[0].key), NormField(fields[0])))
  }

  function NormField(field: Field): Json
    decreases field, 0
  {
    Norm(field.value)
  }

  // ---- The tree of a printed value ----

  function PieceOf(c: char): Piece {
    if c == '"' || c == '\\' then Named(c)
    else if c == BACKSPACE then Named('b')
    else if c == FORM_FEED then Named('f')
    else if c == '\n' then Named('n')
    else if c == '\r' then Named('r')
    else if c == '\t' then Named('t')
    else if c < ' ' then Coded(UnicodeEscape(c)[2..])
    else AsIs(c)
  }

  function PiecesOf(s: string): seq<Piece> {
    if s == "" then [] else [PieceOf(s[0])] + PiecesOf(s[1..])
  }

  function IntegerOf(i: int): Numeral {
    Numeral(i < 0, NatText(if i < 0 then -i else i), "", "")
  }

  function TreeOf(v: Json, style: Style, level: nat): Tree
    decreases v, 1
  {
    match v
    case Int64(i) => Number(IntegerOf(i))
    case Uint64(u) => Number(IntegerOf(u))
    case Double(d) => Number(PrintedNumeral(d))
    case Str(s) => Text(PiecesOf(s))
    case Arr(items) => Array("", ItemsOf(items, style, level))
    case Obj(fields) => Object("", MembersOf(fields, style, level))
    case _ => Word(v)
  }

  function ItemsOf(items: seq<Json>, style: Style, level: nat): seq<Item>
    decreases items, 0
  {
    if items == [] then []
    else
      [Item(NewLine(style, level + 1), TreeOf(items[0], style, level + 1),
            if |items| > 1 then "" else NewLine(style, level))] + ItemsOf(items[1..], style, level)
  }

  function MembersOf(fields: seq<Field>, style: Style, level: nat): seq<Member>
    decreases fields, 0
  {
    if fields == [] then []
    else
      [MemberOf(fields[0], style, level, if |fields| > 1 then "" else NewLine(style, level))]
      + MembersOf(fields[1..], style, level)
  }

  function MemberOf(field: Field, style: Style, level: nat, after: string): Member
    decreases field, 0
  {
    Member(NewLine(style, level + 1), PiecesOf(field.key), Colon("", if style.pretty then " " else ""),
           TreeOf(field.value, style, level + 1), after)
  }

  // ---- It is legal ----

  lemma PieceOfIsLegal(c: char)
    ensures LegalPiece(PieceOf(c)) && PieceText(PieceOf(c)) == EscapeChar(c) && PieceMeaning(PieceOf(c)) == KeptChar(c)
  {
    if BadControl(c) {
      var e := UnicodeEscape(c);
      assert e == "\\u" + e[2..];
    }
  }

  lemma {:induction false} PiecesOfAreLegal(s: string)
    ensures LegalPieces(PiecesOf(s)) && PiecesText(PiecesOf(s)) == EscapeChars(s)
    ensures PiecesMeaning(PiecesOf(s)) == Kept(s)
  {
    if s != "" {
      PieceOfIsLegal(s[0]);
      PiecesOfAreLegal(s[1..]);
      assert PiecesOf(s)[1..] == PiecesOf(s[1..]);
    }
  }

  lemma NewLineIsBlank(style: Style, level: nat)
    ensures Blanks(NewLine(style, level))
  {
  }

  lemma {:induction false} TreeIsLegal(v: Json, style: Style, level: nat)
    ensures Legal(TreeOf(v, style, level))
    decreases v, 1
  {
    match v
    case Int64(i) => NatTextIs(if i < 0 then -(i as int) else i);
    case Uint64(u) => NatTextIs(u);
    case Double(d) => PrintedMeans(d);
    case Str(s) => PiecesOfAreLegal(s);
    case Arr(items) => ItemsAreLegal(items, style, level);
    case Obj(fields) => MembersAreLegal(fields, style, level);
    case _ =>
  }

  lemma {:induction false} ItemsAreLegal(items: seq<Json>, style: Style, level: nat)
    ensures forall item :: item in ItemsOf(items, style, level) ==> LegalItem(item)
    decreases items, 0
  {
    if items != [] {
      NewLineIsBlank(style, level);
      NewLineIsBlank(style, level + 1);
      TreeIsLegal(items[0], style, level + 1);
      ItemsAreLegal(items[1..], style, level);
    }
  }

  lemma {:induction false} MembersAreLegal(fields: seq<Field>, style: Style, level: nat)
    ensures forall m :: m in MembersOf(fields, style, level) ==> LegalMember(m)
    decreases fields, 0
  {
    if fields != [] {
      NewLineIsBlank(style, level);
      MemberIsLegal(fields[0], style, level, if |fields| > 1 then "" else NewLine(style, level));
      MembersAreLegal(fields[1..], style, level);
    }
  }

  lemma MemberIsLegal(field: Field, style: Style, level: nat, after: string)
    requires Blanks(after)
    ensures LegalMember(MemberOf(field, style, level, after))
    decreases field, 0
  {
    NewLineIsBlank(style, level + 1);
    PiecesOfAreLegal(field.key);
    TreeIsLegal(field.value, style, level + 1);
  }

  // ---- Its text is what is printed ----

  lemma IntegerPrints(i: int)
    ensures NumeralText(IntegerOf(i)) == IntText(i)
  {
    PlainText(IntegerOf(i));
  }

  lemma {:induction false} TreePrints(v: Json, style: Style, level: nat)
    ensures TreeText(TreeOf(v, style, level)) == Print(v, style, level)
    decreases v, 1
  {
    match v
    case Int64(i) => IntegerPrints(i);
    case Uint64(u) => IntegerPrints(u);
    case Str(s) => PiecesOfAreLegal(s);
    case Arr(items) =>
      ItemsPrint(items, style, level);
      assert "" + BodyArray(items, style, level) == BodyArray(items, style, level);
    case Obj(fields) =>
      MembersPrint(fields, style, level);
      assert "" + BodyObject(fields, style, level) == BodyObject(fields, style, level);
    case _ =>
  }

  /** One element or member, its delimiter and those after it; `end` closes the list. */
  lemma Nested(line: string, text: string, more: string, end: string)
    ensures line + (text + end) + ("" + "") == (line + text + "" + "") + end
    ensures line + (text + "") + ("," + (more + end)) == (line + text + "," + more) + end
  {
  }

  lemma {:induction false} ItemsPrint(items: seq<Json>, style: Style, level: nat)
    ensures ItemsText(ItemsOf(items, style, level)) == BodyArray(items, style, level)
    decreases items, 0
  {
    if items != [] {
      TreePrints(items[0], style, level + 1);
      ItemsPrint(items[1..], style, level);
      assert ItemsOf(items, style, level)[1..] == ItemsOf(items[1..], style, level);
      Nested(NewLine(style, level + 1), Print(items[0], style, level + 1), PrintItems(items[1..], style, level),
        NewLine(style, level));
    }
  }

  lemma MemberPrints(field: Field, style: Style, level: nat, after: string)
    ensures MemberText(MemberOf(field, style, level, after))
         == NewLine(style, level + 1) + (PrintField(field, style, level) + after)
    decreases field, 0
  {
    TreePrints(field.value, style, level + 1);
    PiecesOfAreLegal(field.key);
    FieldNested(Escape(field.key), style.pretty, Print(field.value, style, level + 1), after);
  }

  lemma FieldNested(key: string, pretty: bool, value: string, after: string)
    ensures var colon := Colon("", if pretty then " " else "");
            key + (ColonText(colon) + (value + after)) == key + (if pretty then ": " else ":") + value + after
  {
  }

  lemma {:induction false} MembersPrint(fields: seq<Field>, style: Style, level: nat)
    ensures MembersText(MembersOf(fields, style, level)) == BodyObject(fields, style, level)
    decreases fields, 0
  {
    if fields != [] {
      MemberPrints(fields[0], style, level, if |fields| > 1 then "" else NewLine(style, level));
      MembersPrint(fields[1..], style, level);
      assert MembersOf(fields, style, level)[1..] == MembersOf(fields[1..], style, level);
      Nested(NewLine(style, level + 1), PrintField(fields[0], style, level), PrintFields(fields[1..], style, level),
        NewLine(style, level));
    }
  }

  // ---- It means the normal form ----

  /** A value, or the error of a number out of range. */
  ghost function Outcome<T>(readable: bool, v: T): Result<T, JsonError> {
    if readable then Ok(v) else Err(InvalidNumber)
  }

  lemma IntegerMeans(i: int)
    ensures Meant(IntegerOf(i)) == Integral(i < 0, if i < 0 then -i else i)
  {
    NatTextIs(if i < 0 then -i else i);
  }

  lemma {:induction false} TreeMeans(v: Json, style: Style, level: nat)
    ensures Meaning(TreeOf(v, style, level)) == Outcome(Readable(v), Norm(v))
    decreases v, 1
  {
    match v
    case Int64(i) => IntegerMeans(i);
    case Uint64(u) => IntegerMeans(u);
    case Double(d) =>
      PrintedMeans(d);
      RereadFails(d);
    case Str(s) => PiecesOfAreLegal(s);
    case Arr(items) =>
      ItemsMean(items, style, level, []);
      assert [] + NormItems(items) == NormItems(items);
    case Obj(fields) => MembersMean(fields, style, level, []);
    case _ =>
  }

  lemma ReadableStep(items: seq<Json>)
    requires items != []
    ensures AllReadable(items) <==> Readable(items[0]) && AllReadable(items[1..])
  {
    assert items == [items[0]] + items[1..];
  }

  lemma {:induction false} ItemsMean(items: seq<Json>, style: Style, level: nat, out: seq<Json>)
    ensures ItemsMeaning(ItemsOf(items, style, level), out) == Outcome(AllReadable(items), out + NormItems(items))
    decreases items, 0
  {
    if items == [] {
      assert out + [] == out;
    } else {
      TreeMeans(items[0], style, level + 1);
      ReadableStep(items);
      assert ItemsOf(items, style, level)[1..] == ItemsOf(items[1..], style, level);
      ItemsMean(items[1..], style, level, out + [Norm(items[0])]);
      Assoc(out, [Norm(items[0])], NormItems(items[1..]));
    }
  }

  lemma FieldsReadableStep(fields: seq<Field>)
    requires fields != []
    ensures FieldsReadable(fields) <==> Readable(fields[0].value) && FieldsReadable(fields[1..])
  {
    assert fields == [fields[0]] + fields[1..];
  }

  lemma {:induction false} MembersMean(fields: seq<Field>, style: Style, level: nat, out: seq<Field>)
    ensures MembersMeaning(MembersOf(fields, style, level), out)
         == Outcome(FieldsReadable(fields), NormFields(fields, out))
    decreases fields, 0
  {
    if fields != [] {
      MemberMeans(fields[0], style, level, if |fields| > 1 then "" else NewLine(style, level));
      FieldsReadableStep(fields);
      assert MembersOf(fields, style, level)[1..] == MembersOf(fields[1..], style, level);
      MembersMean(fields[1..], style, level, Emplace(out, Kept(fields[0].key), NormField(fields[0])));
    }
  }

  lemma MemberMeans(field: Field, style: Style, level: nat, after: string)
    ensures MemberMeaning(MemberOf(field, style, level, after)) == Outcome(Readable(field.value), NormField(field))
    ensures PiecesMeaning(MemberOf(field, style, level, after).key) == Kept(field.key)
    decreases field, 0
  {
    TreeMeans(field.value, style, level + 1);
    PiecesOfAreLegal(field.key);
  }

  /** Parsing the compact or any indented text of any value gives its normal form, or fails if some double in it is not
      readable. */
  lemma ParseAfterPrint(v: Json, style: Style)
    ensures ParseJson(ToJson(v, style)) == if Readable(v) then Ok(Norm(v)) else Err(InvalidNumber)
  {
    var tree := TreeOf(v, style, 0);
    TreeIsLegal(v, style, 0);
    TreePrints(v, style, 0);
    TreeMeans(v, style, 0);
    DocumentParsed(Document("", tree, ""));
    assert "" + (TreeText(tree) + "") == TreeText(tree);
  }
}
