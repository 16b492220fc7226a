/** Which values survive printing and parsing unchanged, and what every parsed value looks like. */
module JsonStable {
  import opened Machine
  import opened Json
  import opened NumberRoundTrip
  import opened JsonRoundTrip

  /** Every object lists its keys in strictly increasing order, as a `std::map` does. */
  ghost predicate WellFormed(v: Json) {
    match v
    case Arr(items) => forall item :: item in items ==> WellFormed(item)
    case Obj(fields) => Sorted(fields) && forall field :: field in fields ==> WellFormed(field.value)
    case _ => true
  }

  ghost predicate Clean(s: string) {
    forall i :: 0 <= i < |s| ==> !BadControl(s[i])
  }

  /** No non-negative signed number, no control character without a named escape in any string or key, and no double
      whose sixteen digits mean anything else. */
  ghost predicate Stable(v: Json) {
    match v
    case Int64(i) => i < 0
    case Double(d) => Reread(d) == Ok(v)
    case Str(s) => Clean(s)
    case Arr(items) => forall item :: item in items ==> Stable(item)
    case Obj(fields) => forall field :: field in fields ==> Clean(field.key) && Stable(field.value)
    case _ => true
  }

  ghost predicate KeysClean(v: Json) {
    match v
    case Arr(items) => forall item :: item in items ==> KeysClean(item)
    case Obj(fields) => forall field :: field in fields ==> Clean(field.key) && KeysClean(field.value)
    case _ => true
  }

  // ---- The order of keys ----

  lemma {:induction false} LessTransitive(a: string, b: string, c: string)
    requires Less(a, b) && Less(b, c)
    ensures Less(a, c)
  {
    if a != "" && a[0] == b[0] == c[0] {
      LessTransitive(a[1..], b[1..], c[1..]);
    }
  }

  lemma {:induction false} LessTotal(a: string, b: string)
    ensures a == b || Less(a, b) || Less(b, a)
  {
    if a != "" && b != "" && a[0] == b[0] {
      LessTotal(a[1..], b[1..]);
      assert a[1..] == b[1..] ==> a == [a[0]] + a[1..] == [b[0]] + b[1..] == b;
    }
  }

  lemma {:induction false} LessIrreflexive(a: string)
    ensures !Less(a, a)
  {
    if a != "" {
      LessIrreflexive(a[1..]);
    }
  }

  /** A key below every key of an object goes in front. */
  lemma SortedCons(field: Field, fields: seq<Field>)
    requires Sorted(fields) && (fields != [] ==> Less(field.key, fields[0].key))
    ensures Sorted([field] + fields)
  {
    forall j | 0 <= j < |fields|
      ensures Less(field.key, fields[j].key)
    {
      if j > 0 {
        LessTransitive(field.key, fields[0].key, fields[j].key);
      }
    }
  }

  lemma {:induction false} EmplaceSorted(fields: seq<Field>, key: string, v: Json)
    requires Sorted(fields)
    ensures Sorted(Emplace(fields, key, v))
    ensures var out := Emplace(fields, key, v);
            out != [] && (out[0].key == key || (fields != [] && out[0].key == fields[0].key))
  {
    if fields != [] && key != fields[0].key {
      if Less(key, fields[0].key) {
        SortedCons(Field(key, v), fields);
      } else {
        LessTotal(key, fields[0].key);
        EmplaceSorted(fields[1..], key, v);
        SortedCons(fields[0], Emplace(fields[1..], key, v));
      }
    }
  }

  lemma {:induction false} EmplaceMembers(fields: seq<Field>, key: string, v: Json)
    ensures forall field :: field in Emplace(fields, key, v) ==> field in fields || field == Field(key, v)
  {
    if fields != [] && key != fields[0].key && !Less(key, fields[0].key) {
      EmplaceMembers(fields[1..], key, v);
    }
  }

  /** A key above every key of an object goes at the end. */
  lemma {:induction false} EmplaceAtEnd(fields: seq<Field>, key: string, v: Json)
    requires forall i :: 0 <= i < |fields| ==> Less(fields[i].key, key)
    ensures Emplace(fields, key, v) == fields + [Field(key, v)]
  {
    if fields != [] {
      EmplaceAtEnd(fields[1..], key, v);
      LessIrreflexive(key);
      if Less(key, fields[0].key) {
        LessTransitive(key, fields[0].key, key);
      }
    }
  }

  lemma {:induction false} NotFound(fields: seq<Field>, key: string)
    requires Sorted(fields) && (fields != [] ==> Less(key, fields[0].key))
    ensures Find(fields, key) == None
  {
    if fields != [] {
      LessIrreflexive(key);
      if |fields| > 1 {
        LessTransitive(key, fields[0].key, fields[1].key);
      }
      NotFound(fields[1..], key);
    }
  }

  /** A key is found with its first value; other keys are found as before. */
  lemma {:induction false} FindEmplaced(fields: seq<Field>, key: string, v: Json, k: string)
    requires Sorted(fields)
    ensures Find(Emplace(fields, key, v), k)
         == if k == key && Find(fields, key).None? then Some(v) else Find(fields, k)
  {
    if fields != [] && key != fields[0].key {
      if Less(key, fields[0].key) {
        NotFound(fields, key);
      } else {
        FindEmplaced(fields[1..], key, v, k);
      }
    }
  }

  // ---- Values that come back unchanged ----

  lemma {:induction false} KeptClean(s: string)
    requires Clean(s)
    ensures Kept(s) == s
  {
    if s != "" {
      KeptClean(s[1..]);
      assert s == [s[0]] + s[1..];
    }
  }

  lemma {:induction false} KeptIsClean(s: string)
    ensures Clean(Kept(s))
  {
    if s != "" {
      KeptIsClean(s[1..]);
      KeptCharIsClean(s[0]);
    }
  }

  lemma KeptCharIsClean(c: char)
    ensures Clean(KeptChar(c))
  {
    if BadControl(c) {
      var e := UnicodeEscape(c);
      assert forall i :: 0 <= i < 6 ==> e[i] >= ' ';
    }
  }

  lemma CleanIsKept(s: string)
    ensures Kept(s) == s <==> Clean(s)
  {
    KeptIsClean(s);
    if Clean(s) {
      KeptClean(s);
    }
  }

  /** The fields with what their values come back as. */
  ghost function NormEach(fields: seq<Field>): seq<Field> {
    if fields == [] then [] else [Field(fields[0].key, Norm(fields[0].value))] + NormEach(fields[1..])
  }

  lemma {:induction false} NormEachSame(done: seq<Field>, fields: seq<Field>)
    requires Sorted(done + fields) && forall field :: field in fields ==> Clean(field.key)
    ensures NormFields(fields, done) == done + NormEach(fields)
    decreases fields
  {
    if fields == [] {
      assert done + [] == done;
    } else {
      var field := Field(fields[0].key, Norm(fields[0].value));
      KeptClean(field.key);
      BelowNext(done, fields);
      EmplaceAtEnd(done, field.key, field.value);
      SortedSwap(done, fields, field.value);
      NormEachSame(done + [field], fields[1..]);
      Assoc(done, [field], NormEach(fields[1..]));
    }
  }

  /** The order of fields depends on their keys alone. */
  lemma SortedSwap(done: seq<Field>, fields: seq<Field>, v: Json)
    requires fields != [] && Sorted(done + fields)
    ensures Sorted(done + [Field(fields[0].key, v)] + fields[1..])
  {
    var before, after := done + fields, done + [Field(fields[0].key, v)] + fields[1..];
    forall i, j | 0 <= i < j < |after|
      ensures Less(after[i].key, after[j].key)
    {
      assert after[i].key == before[i].key && after[j].key == before[j].key;
    }
  }

  lemma BelowNext(done: seq<Field>, fields: seq<Field>)
    requires fields != [] && Sorted(done + fields)
    ensures forall i :: 0 <= i < |done| ==> Less(done[i].key, fields[0].key)
  {
    var all := done + fields;
    assert all[|done|] == fields[0];
    assert forall i :: 0 <= i < |done| ==> all[i] == done[i] && Less(all[i].key, all[|done|].key);
  }

  /** With clean keys, a readable value comes back unchanged exactly if it is stable. */
  lemma {:induction false} NormFixed(v: Json)
    requires WellFormed(v) && KeysClean(v) && Readable(v)
    ensures Norm(v) == v <==> Stable(v)
    decreases v, 1
  {
    match v
    case Str(s) => CleanIsKept(s);
    case Arr(items) => ItemsFixed(items);
    case Obj(fields) =>
      NormEachSame([], fields);
      assert [] + fields == fields && [] + NormEach(fields) == NormEach(fields);
      FieldsFixed(fields);
    case _ =>
  }

  lemma {:induction false} ItemsFixed(items: seq<Json>)
    requires forall item :: item in items ==> WellFormed(item) && KeysClean(item) && Readable(item)
    ensures NormItems(items) == items <==> forall item :: item in items ==> Stable(item)
    decreases items, 0
  {
    if items != [] {
      NormFixed(items[0]);
      ItemsFixed(items[1..]);
      assert items == [items[0]] + items[1..];
    }
  }

  lemma {:induction false} FieldsFixed(fields: seq<Field>)
    requires forall field :: field in fields ==> WellFormed(field.value) && KeysClean(field.value)
    requires forall field :: field in fields ==> Clean(field.key) && Readable(field.value)
    ensures NormEach(fields) == fields <==> forall field :: field in fields ==> Clean(field.key) && Stable(field.value)
    decreases fields, 0
  {
    if fields != [] {
      FieldFixed(fields[0]);
      FieldsFixed(fields[1..]);
      assert fields == [fields[0]] + fields[1..];
      assert fields[0] == Field(fields[0].key, fields[0].value);
    }
  }

  lemma FieldFixed(field: Field)
    requires WellFormed(field.value) && KeysClean(field.value) && Readable(field.value)
    ensures Norm(field.value) == field.value <==> Stable(field.value)
    decreases field, 0
  {
    NormFixed(field.value);
  }

  lemma {:induction false} NormKeysClean(v: Json)
    ensures KeysClean(Norm(v))
    decreases v, 1
  {
    match v
    case Arr(items) => NormItemsKeysClean(items);
    case Obj(fields) => NormFieldsKeysClean(fields, []);
    case _ =>
  }

  lemma {:induction false} NormItemsKeysClean(items: seq<Json>)
    ensures forall item :: item in NormItems(items) ==> KeysClean(item)
    decreases items, 0
  {
    if items != [] {
      NormKeysClean(items[0]);
      NormItemsKeysClean(items[1..]);
    }
  }

  lemma {:induction false} NormFieldsKeysClean(fields: seq<Field>, out: seq<Field>)
    requires forall field :: field in out ==> Clean(field.key) && KeysClean(field.value)
    ensures forall field :: field in NormFields(fields, out) ==> Clean(field.key) && KeysClean(field.value)
    decreases fields, 0
  {
    if fields != [] {
      KeptIsClean(fields[0].key);
      NormFieldKeysClean(fields[0]);
      EmplaceMembers(out, Kept(fields[0].key), NormField(fields[0]));
      NormFieldsKeysClean(fields[1..], Emplace(out, Kept(fields[0].key), NormField(fields[0])));
    }
  }

  lemma NormFieldKeysClean(field: Field)
    ensures KeysClean(NormField(field))
    decreases field, 0
  {
    NormKeysClean(field.value);
  }

  lemma StableMeans(v: Json)
    requires Stable(v)
    ensures KeysClean(v) && Readable(v)
  {
  }

  /** A value survives printing and parsing exactly when it is stable. */
  lemma RoundTripExactly(v: Json, style: Style)
    requires WellFormed(v)
    ensures ParseJson(ToJson(v, style)) == Ok(v) <==> Stable(v)
  {
    ParseAfterPrint(v, style);
    if Stable(v) {
      StableMeans(v);
      NormFixed(v);
    } else if Readable(v) && Norm(v) == v {
      NormKeysClean(v);
      NormFixed(v);
    }
  }

  /** A lone control character without a named escape comes back as the six characters of its escape. */
  lemma ControlCharacterIsLost(c: char, style: Style)
    requires BadControl(c)
    ensures ParseJson(ToJson(Str([c]), style)) == Ok(Str(UnicodeEscape(c)))
    ensures |UnicodeEscape(c)| == 6
  {
    var s := [c];
    ParseAfterPrint(Str(s), style);
    assert s[1..] == "";
    assert Kept(s) == KeptChar(c) + Kept("");
    assert KeptChar(c) + "" == KeptChar(c);
  }

  // ---- Parsed values ----

  lemma {:induction false} ParsedWellFormed(s: string)
    ensures var r := ParseValue(s);
            r.Ok? ==> WellFormed(r.value.0)
    decreases |s|, 0
  {
    if s != "" && s[0] == '[' {
      ParsedArrayWellFormed(s[1..]);
    } else if s != "" && s[0] == '{' {
      ParsedObjectWellFormed(s[1..]);
    } else {
      ScalarWellFormed(s);
    }
  }

  lemma ScalarWellFormed(s: string)
    requires s == "" || (s[0] != '[' && s[0] != '{')
    ensures var r := ParseValue(s);
            r.Ok? ==> !r.value.0.Arr? && !r.value.0.Obj?
  {
  }

  lemma ParsedArrayWellFormed(s: string)
    ensures var r := ParseArray(s);
            r.Ok? ==> forall item :: item in r.value.0 ==> WellFormed(item)
    decreases |s|, 2
  {
    ParsedItemsWellFormed(SkipWs(s), []);
  }

  lemma {:induction false} ParsedItemsWellFormed(s: string, out: seq<Json>)
    requires forall item :: item in out ==> WellFormed(item)
    ensures var r := ParseItems(s, out);
            r.Ok? ==> forall item :: item in r.value.0 ==> WellFormed(item)
    decreases |s|, 1
  {
    ParsedWellFormed(SkipWs(s));
    var first := ParseValue(SkipWs(s));
    if first.Ok? {
      var rest := SkipWs(first.value.1);
      if rest != "" && rest[0] == ',' {
        ParsedItemsWellFormed(rest[1..], out + [first.value.0]);
      }
    }
  }

  ghost predicate GoodFields(fields: seq<Field>) {
    Sorted(fields) && forall field :: field in fields ==> WellFormed(field.value)
  }

  lemma ParsedObjectWellFormed(s: string)
    ensures var r := ParseObject(s);
            r.Ok? ==> GoodFields(r.value.0)
    decreases |s|, 2
  {
    ParsedMembersWellFormed(SkipWs(s), []);
  }

  lemma {:induction false} ParsedMembersWellFormed(s: string, out: seq<Field>)
    requires GoodFields(out)
    ensures var r := ParseMembers(s, out);
            r.Ok? ==> GoodFields(r.value.0)
    decreases |s|, 1
  {
    var key := ParseKey(s);
    if key.Ok? {
      var first := ParseValue(key.value.1);
      ParsedWellFormed(key.value.1);
      if first.Ok? {
        EmplaceSorted(out, key.value.0, first.value.0);
        EmplaceMembers(out, key.value.0, first.value.0);
        var rest := SkipWs(first.value.1);
        if rest != "" && rest[0] == ',' {
          ParsedMembersWellFormed(rest[1..], Emplace(out, key.value.0, first.value.0));
        }
      }
    }
  }

  /** Whatever the text, every object that comes out of the parser has distinct, ordered keys. */
  lemma ParseJsonWellFormed(text: string)
    ensures ParseJson(text).Ok? ==> WellFormed(ParseJson(text).value)
  {
    ParsedWellFormed(SkipWs(text));
  }
}
