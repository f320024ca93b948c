/**
 * What the emitter promises, proved about the specification functions of
 * module Emission (which `Obj2Thrift` is proved to follow): the field at each
 * position, the run of field ids, the id reuse after a value no branch
 * matches, the shape of field lines and struct texts, the type chosen for
 * arrays, how many structs one call appends, and where nested structs land.
 */
module Properties {
  import opened Wrappers
  import opened JsonTree
  import opened Decimal
  import opened Sanitizer
  import opened Emission

  // ---------------------------------------------------------------- fields

  /** Field `j` of a struct comes from member `j`: its name is the mapped key,
      its type the token of the member's value, and its id is one more than
      the number of members before it whose value took a branch. */
  lemma FieldsAt(keywordMap: map<string, string>, ms: seq<Member>)
    ensures forall j | 0 <= j < |ms| ::
      Fields(keywordMap, ms)[j] ==
        Field(FieldCount(ms[..j]) + 1, TypeToken(ms[j].value, KeyMapping(keywordMap, ms[j].key)),
              KeyMapping(keywordMap, ms[j].key))
  {
    forall j | 0 <= j < |ms| {
      FieldAt(keywordMap, ms, j);
    }
  }

  /** The same for one position, by induction on the members. */
  lemma {:induction false} FieldAt(keywordMap: map<string, string>, ms: seq<Member>, j: nat)
    requires j < |ms|
    ensures Fields(keywordMap, ms)[j] ==
      Field(FieldCount(ms[..j]) + 1, TypeToken(ms[j].value, KeyMapping(keywordMap, ms[j].key)),
            KeyMapping(keywordMap, ms[j].key))
  {
    var init := ms[..|ms| - 1];
    if j < |init| {
      FieldAt(keywordMap, init, j);
      assert init[..j] == ms[..j];
    } else {
      assert init == ms[..j];
    }
  }

  /** The counter never runs ahead of the members: at most one per member. */
  lemma {:induction false} FieldCountBound(ms: seq<Member>)
    ensures FieldCount(ms) <= |ms|
  {
    if ms != [] {
      FieldCountBound(ms[..|ms| - 1]);
    }
  }

  /** The counter reaches the number of members exactly when every value took a branch. */
  lemma {:induction false} FieldCountAll(ms: seq<Member>)
    ensures FieldCount(ms) == |ms| <==> forall j | 0 <= j < |ms| :: Recognized(ms[j].value)
  {
    if ms != [] {
      var init := ms[..|ms| - 1];
      FieldCountAll(init);
      FieldCountBound(init);
      if forall j | 0 <= j < |ms| :: Recognized(ms[j].value) {
        assert forall j | 0 <= j < |init| :: Recognized(init[j].value) by {
          forall j | 0 <= j < |init| ensures Recognized(init[j].value) {
            assert init[j] == ms[j];
          }
        }
      } else if Recognized(ms[|ms| - 1].value) {
        var k :| 0 <= k < |ms| && !Recognized(ms[k].value);
        assert k < |init| && init[k] == ms[k];
      }
    }
  }

  /** The ids of the fields that got a type are 1, 2, ..., n in key order, n being
      the number of such fields. */
  lemma {:induction false} TypedIdsContiguous(keywordMap: map<string, string>, ms: seq<Member>)
    ensures TypedIds(Fields(keywordMap, ms)) == seq(FieldCount(ms), (j: int) => j + 1)
  {
    if ms != [] {
      var init := ms[..|ms| - 1];
      var fs := Fields(keywordMap, ms);
      TypedIdsContiguous(keywordMap, init);
      assert fs[..|fs| - 1] == Fields(keywordMap, init);
      if Recognized(ms[|ms| - 1].value) {
        assert seq(FieldCount(ms), (j: int) => j + 1) ==
          seq(FieldCount(init), (j: int) => j + 1) + [FieldCount(init) + 1];
      }
    }
  }

  /** When no value is null or of an unknown class, field `j` has id `j + 1` and a type. */
  lemma IdsWithoutNulls(keywordMap: map<string, string>, ms: seq<Member>)
    requires forall j | 0 <= j < |ms| :: Recognized(ms[j].value)
    ensures forall j | 0 <= j < |ms| :: Fields(keywordMap, ms)[j].id == j + 1 && Fields(keywordMap, ms)[j].ty.Some?
  {
    FieldsAt(keywordMap, ms);
    forall j | 0 <= j < |ms| ensures FieldCount(ms[..j]) == j {
      assert forall k | 0 <= k < j :: ms[..j][k] == ms[k];
      FieldCountAll(ms[..j]);
    }
  }

  /** The id of the next field: one more after a value that took a branch, the
      same id again after a value that took none, whose field has no type. */
  lemma NextId(keywordMap: map<string, string>, ms: seq<Member>, j: nat)
    requires j + 1 < |ms|
    ensures Fields(keywordMap, ms)[j].ty.None? <==> !Recognized(ms[j].value)
    ensures Fields(keywordMap, ms)[j + 1].id ==
      Fields(keywordMap, ms)[j].id + (if Recognized(ms[j].value) then 1 else 0)
  {
    FieldsAt(keywordMap, ms);
    CountStep(ms, j);
  }

  // ------------------------------------------------------------ field text

  /** The leading run of decimal digits of a string. */
  function LeadingDigits(s: string): (d: string)
    ensures AllDigits(d) && |d| <= |s| && d == s[..|d|]
  {
    if s == [] || !IsDigit(s[0]) then [] else [s[0]] + LeadingDigits(s[1..])
  }

  /** Digits followed by a non-digit are read back whole. */
  lemma {:induction false} LeadingDigitsOf(d: string, rest: string)
    requires AllDigits(d) && rest != [] && !IsDigit(rest[0])
    ensures LeadingDigits(d + rest) == d
  {
    if d != [] {
      assert (d + rest)[1..] == d[1..] + rest;
      LeadingDigitsOf(d[1..], rest);
    }
  }

  /** Every field text starts with four spaces, then the id in decimal, which
      reads back as the id, then `": "` and the requiredness word of the flag. */
  lemma FieldPrefixReadBack(f: Field, fieldRequired: bool)
    ensures var t := FieldText(f, fieldRequired);
      var k := |NatToString(f.id)|;
      && |t| >= k + 15
      && t[..4] == "    "
      && DigitsValue(LeadingDigits(t[4..])) == f.id
      && t[4 + k..6 + k] == ": "
      && t[6 + k..15 + k] == (if fieldRequired then "required " else "optional ")
  {
    var n := NatToString(f.id);
    var req := Requiredness(fieldRequired);
    var tail := if f.ty.Some? then f.ty.value + " " + f.name + ",\n" else "";
    PrefixParts(n, req, tail);
    NatToStringRoundTrip(f.id);
    LeadingDigitsOf(n, ": " + req + tail);
  }

  /** Where the parts of `"    " + n + ": " + req + tail` sit. */
  lemma PrefixParts(n: string, req: string, tail: string)
    requires |req| == 9
    ensures var t := "    " + n + ": " + req + tail;
      && |t| >= |n| + 15
      && t[..4] == "    "
      && t[4..] == n + (": " + req + tail)
      && t[4 + |n|..6 + |n|] == ": "
      && t[6 + |n|..15 + |n|] == req
  {
    var t := "    " + n + ": " + req + tail;
    assert t == "    " + (n + (": " + (req + tail)));
  }

  /** A field that got a type ends its line with a space, the mapped key and `",\n"`,
      and has the type token just after the prefix. */
  lemma TypedFieldLine(f: Field, fieldRequired: bool)
    requires f.ty.Some?
    ensures var t := FieldText(f, fieldRequired);
      var p := |FieldPrefix(f.id, fieldRequired)|;
      && |t| == p + |f.ty.value| + |f.name| + 3
      && t[|t| - |f.name| - 3..] == " " + f.name + ",\n"
      && t[p..p + |f.ty.value|] == f.ty.value
  {
    LineParts(FieldPrefix(f.id, fieldRequired), f.ty.value, f.name);
  }

  /** Where the parts of `p + ty + " " + name + ",\n"` sit. */
  lemma LineParts(p: string, ty: string, name: string)
    ensures var t := p + (ty + " " + name + ",\n");
      && |t| == |p| + |ty| + |name| + 3
      && t[|t| - |name| - 3..] == " " + name + ",\n"
      && t[|p|..|p| + |ty|] == ty
  {
    var t := p + (ty + " " + name + ",\n");
    assert t == (p + ty) + (" " + name + ",\n");
  }

  /** A field that got no type leaves nothing after its prefix. */
  lemma UntypedFieldLine(f: Field, fieldRequired: bool)
    requires f.ty.None?
    ensures FieldText(f, fieldRequired) == FieldPrefix(f.id, fieldRequired)
    ensures |FieldText(f, fieldRequired)| == 15 + |NatToString(f.id)|
  {
  }

  // ------------------------------------------------------------ type tokens

  /** The type token of an array depends on its first element alone. */
  lemma ArrayTailIgnored(first: Json, rest: seq<Json>, rest': seq<Json>, mappedKey: string)
    ensures TypeToken(Arr([first] + rest), mappedKey) == TypeToken(Arr([first] + rest'), mappedKey)
  {
  }

  /** Nor do the structs it appends look past the first element. */
  lemma ArrayTailIgnoredStructs(cfg: Config, first: Json, rest: seq<Json>, rest': seq<Json>, mappedKey: string)
    ensures ValueStructs(cfg, Arr([first] + rest), mappedKey) == ValueStructs(cfg, Arr([first] + rest'), mappedKey)
  {
  }

  /** A non-empty array is a list of what its first element would be as a field,
      except that anything other than an object or a scalar makes `list<string>`. */
  lemma ListOfFirst(first: Json, rest: seq<Json>, mappedKey: string)
    ensures IsScalar(first) ==>
      TypeToken(Arr([first] + rest), mappedKey) == Some("list<" + TypeToken(first, mappedKey).value + ">")
    ensures first.Obj? ==> TypeToken(Arr([first] + rest), mappedKey) == Some("list<" + ElmName(mappedKey) + ">")
    ensures !IsScalar(first) && !first.Obj? ==> TypeToken(Arr([first] + rest), mappedKey) == Some("list<string>")
  {
    assert ([first] + rest)[0] == first;
    if first.Dbl? {
      assert "list<" + "double" + ">" == "list<double>";
    } else if first.Int32? {
      assert "list<" + "i32" + ">" == "list<i32>";
    } else if first.Str? {
      assert "list<" + "string" + ">" == "list<string>";
    } else if first.Bool? {
      assert "list<" + "bool" + ">" == "list<bool>";
    } else if first.Int64? {
      assert "list<" + "i64" + ">" == "list<i64>";
    }
  }

  lemma EmptyArrayIsListOfString(mappedKey: string)
    ensures TypeToken(Arr([]), mappedKey) == Some("list<string>")
  {
  }

  /** A mixed array takes the type of its first element. */
  lemma MixedArrayExample()
    ensures TypeToken(Arr([Int32(1), Str("a"), Dbl]), "xs") == Some("list<i32>")
  {
  }

  /** An array of arrays, or one starting with null, falls back to `list<string>`. */
  lemma NestedArrayExample()
    ensures TypeToken(Arr([Arr([Int32(1)])]), "m") == Some("list<string>")
    ensures TypeToken(Arr([Null, Int32(1)]), "m") == Some("list<string>")
  {
  }

  // ----------------------------------------------------------- struct texts

  lemma StructTextShape(cfg: Config, structName: string, o: JsonObject)
    ensures var s := StructText(cfg, structName, o);
      && IsStructBlock(s)
      && |s| >= |Header(structName)| + 2
      && s[..|Header(structName)|] == Header(structName)
      && s[|s| - 2..] == "}\n"
  {
    var h := Header(structName);
    var body := FieldsText(Fields(cfg.keywordMap, o.members), cfg.fieldRequired);
    BlockShape(h, body + "}\n");
    HeaderStart(structName);
  }

  lemma HeaderStart(structName: string)
    ensures |Header(structName)| >= 7 && Header(structName)[..7] == "struct "
  {
    assert Header(structName) == "struct " + (structName + " {\n");
  }

  lemma BlockShape(h: string, rest: string)
    requires |rest| >= 2 && rest[|rest| - 2..] == "}\n"
    ensures (h + rest)[..|h|] == h && (h + rest)[|h + rest| - 2..] == "}\n"
  {
    assert (h + rest)[|h + rest| - 2..] == rest[|rest| - 2..];
  }

  /** One call appends one struct per nested object it reaches, plus its own. */
  lemma {:induction false} EmitCount(cfg: Config, o: JsonObject, structName: string)
    ensures |Emit(cfg, o, structName)| == 1 + NestedCount(o)
    decreases o, 1
  {
    ChildCount(cfg, o, |o.members|);
  }

  lemma {:induction false} ChildCount(cfg: Config, o: JsonObject, n: nat)
    requires n <= |o.members|
    ensures |ChildStructs(cfg, o, n)| == NestedIn(o, n)
    decreases o, 0, n
  {
    if n > 0 {
      ChildCount(cfg, o, n - 1);
      MemberCount(cfg, o.members[n - 1]);
    }
  }

  lemma {:induction false} MemberCount(cfg: Config, m: Member)
    ensures |SubStructs(cfg, m)| == NestedUnder(m)
    decreases m
  {
    match m.value
    case Obj(c) => EmitCount(cfg, c, ObjName(KeyMapping(cfg.keywordMap, m.key)));
    case Arr(elems) =>
      if |elems| > 0 && elems[0].Obj? {
        EmitCount(cfg, elems[0].obj, ElmName(KeyMapping(cfg.keywordMap, m.key)));
      }
    case _ =>
  }

  /** Everything one call appends is a struct block, and the last one is the
      struct of the call's own object. */
  lemma {:induction false} EmitBlocks(cfg: Config, o: JsonObject, structName: string)
    ensures forall s | s in Emit(cfg, o, structName) :: IsStructBlock(s)
    ensures Emit(cfg, o, structName)[|Emit(cfg, o, structName)| - 1] == StructText(cfg, structName, o)
    decreases o, 1
  {
    ChildBlocks(cfg, o, |o.members|);
    StructTextShape(cfg, structName, o);
  }

  lemma {:induction false} ChildBlocks(cfg: Config, o: JsonObject, n: nat)
    requires n <= |o.members|
    ensures forall s | s in ChildStructs(cfg, o, n) :: IsStructBlock(s)
    decreases o, 0, n
  {
    if n > 0 {
      ChildBlocks(cfg, o, n - 1);
      MemberBlocks(cfg, o.members[n - 1]);
    }
  }

  lemma {:induction false} MemberBlocks(cfg: Config, m: Member)
    ensures forall s | s in SubStructs(cfg, m) :: IsStructBlock(s)
    decreases m
  {
    match m.value
    case Obj(c) => EmitBlocks(cfg, c, ObjName(KeyMapping(cfg.keywordMap, m.key)));
    case Arr(elems) =>
      if |elems| > 0 && elems[0].Obj? {
        EmitBlocks(cfg, elems[0].obj, ElmName(KeyMapping(cfg.keywordMap, m.key)));
      }
    case _ =>
  }

  /** The struct a member's nested object gets: named after the mapped key with
      `_obj` for an object value, `_elm` for an object first element of an array. */
  function ChildStruct(cfg: Config, m: Member): Option<string>
  {
    var mappedKey := KeyMapping(cfg.keywordMap, m.key);
    match m.value
    case Obj(c) => Some(StructText(cfg, ObjName(mappedKey), c))
    case Arr(elems) =>
      if |elems| > 0 && elems[0].Obj? then Some(StructText(cfg, ElmName(mappedKey), elems[0].obj)) else None
    case _ => None
  }

  /** Post-order: the struct of each member's nested object is appended before
      the struct of the parent, which comes last. */
  lemma ChildBeforeParent(cfg: Config, o: JsonObject, structName: string, j: nat)
    requires j < |o.members| && ChildStruct(cfg, o.members[j]).Some?
    ensures var e := Emit(cfg, o, structName);
      ChildStruct(cfg, o.members[j]).value in e[..|e| - 1]
  {
    var e := Emit(cfg, o, structName);
    ChildStructIn(cfg, o, |o.members|, j);
    assert e[..|e| - 1] == ChildStructs(cfg, o, |o.members|);
  }

  lemma {:induction false} ChildStructIn(cfg: Config, o: JsonObject, n: nat, j: nat)
    requires j < n <= |o.members| && ChildStruct(cfg, o.members[j]).Some?
    ensures ChildStruct(cfg, o.members[j]).value in ChildStructs(cfg, o, n)
    decreases n
  {
    var m := o.members[n - 1];
    if j == n - 1 {
      var mappedKey := KeyMapping(cfg.keywordMap, m.key);
      var sub := SubStructs(cfg, m);
      assert sub == ValueStructs(cfg, m.value, mappedKey);
      match m.value {
        case Obj(c) =>
          EmitBlocks(cfg, c, ObjName(mappedKey));
          assert sub == Emit(cfg, c, ObjName(mappedKey));
        case Arr(elems) =>
          EmitBlocks(cfg, elems[0].obj, ElmName(mappedKey));
          assert sub == Emit(cfg, elems[0].obj, ElmName(mappedKey));
      }
      assert sub[|sub| - 1] == ChildStruct(cfg, m).value;
      assert ChildStructs(cfg, o, n) == ChildStructs(cfg, o, n - 1) + sub;
    } else {
      ChildStructIn(cfg, o, n - 1, j);
    }
  }

  // -------------------------------------------------------------- scenarios

  /** A null value still gets the id 1, with no type, and the next key gets the
      id 1 again. */
  lemma NullThenIntFields(keywordMap: map<string, string>)
    requires "v" !in keywordMap && "id" !in keywordMap
    ensures Fields(keywordMap, [Member("v", Null), Member("id", Int32(7))]) ==
      [Field(1, None, "v"), Field(1, Some("i32"), "id")]
  {
    var ms := [Member("v", Null), Member("id", Int32(7))];
    ReplaceAllKeeps("v");
    ReplaceAllKeeps("id");
    FieldsAt(keywordMap, ms);
    assert ms[..1] == [Member("v", Null)];
  }

  /** The text of that struct: the prefix of the null field stays, and the next
      field is written right after it with the same id. */
  lemma NullThenIntExample(keywordMap: map<string, string>)
    requires "v" !in keywordMap && "id" !in keywordMap
    ensures StructText(Config(keywordMap, false), "S", JsonObject([Member("v", Null), Member("id", Int32(7))]))
      == Header("S") + ("    1: optional " + "    1: optional i32 id,\n") + "}\n"
  {
    var f0, f1 := Field(1, None, "v"), Field(1, Some("i32"), "id");
    NullThenIntFields(keywordMap);
    FieldsTextPair(f0, f1, false);
    FirstFieldText(f0, false);
    FirstFieldText(f1, false);
  }

  /** A nested object comes first, as the struct named after the key with `_obj`,
      and the root comes last, with a field of that struct type. */
  lemma NestedObjectExample(keywordMap: map<string, string>)
    requires "user" !in keywordMap && "name" !in keywordMap
    ensures Emit(Config(keywordMap, true), JsonObject([Member("user", Obj(JsonObject([Member("name", Str("x"))])))]), "MyStruct")
      == [Header("user_obj") + "    1: required string name,\n" + "}\n",
          Header("MyStruct") + "    1: required user_obj user,\n" + "}\n"]
  {
    var cfg := Config(keywordMap, true);
    var inner := JsonObject([Member("name", Str("x"))]);
    var root := JsonObject([Member("user", Obj(inner))]);
    ReplaceAllKeeps("user");
    ReplaceAllKeeps("name");
    assert ObjName("user") == "user_obj";
    var fName := Field(1, Some("string"), "name");
    var fUser := Field(1, Some("user_obj"), "user");
    assert Fields(keywordMap, inner.members) == [fName];
    assert Fields(keywordMap, root.members) == [fUser];
    FieldsTextSingle(fName, true);
    FieldsTextSingle(fUser, true);
    NameFieldText();
    UserFieldText();
    assert ChildStructs(cfg, inner, 1) == ChildStructs(cfg, inner, 0) + SubStructs(cfg, inner.members[0]);
    assert Emit(cfg, inner, "user_obj") == [StructText(cfg, "user_obj", inner)];
    assert ChildStructs(cfg, root, 1) == ChildStructs(cfg, root, 0) + SubStructs(cfg, root.members[0]);
    assert SubStructs(cfg, root.members[0]) == Emit(cfg, inner, "user_obj");
  }

  lemma NameFieldText()
    ensures FieldText(Field(1, Some("string"), "name"), true) == "    1: required string name,\n"
  {
    FirstFieldText(Field(1, Some("string"), "name"), true);
  }

  lemma UserFieldText()
    ensures FieldText(Field(1, Some("user_obj"), "user"), true) == "    1: required user_obj user,\n"
  {
    FirstFieldText(Field(1, Some("user_obj"), "user"), true);
  }

  /** An array of objects gets one struct, named after the key with `_elm` and
      inferred from its first element only, and a `list<...>` field of it. */
  lemma ArrayOfObjectsExample(keywordMap: map<string, string>)
    requires "items" !in keywordMap && "v" !in keywordMap
    ensures Emit(Config(keywordMap, false),
                 JsonObject([Member("items", Arr([Obj(JsonObject([Member("v", Int32(1))])),
                                                  Obj(JsonObject([Member("v", Str("two"))]))]))]), "Root")
      == [Header("items_elm") + "    1: optional i32 v,\n" + "}\n",
          Header("Root") + "    1: optional list<items_elm> items,\n" + "}\n"]
  {
    var cfg := Config(keywordMap, false);
    var first := JsonObject([Member("v", Int32(1))]);
    var root := JsonObject([Member("items", Arr([Obj(first), Obj(JsonObject([Member("v", Str("two"))]))]))]);
    ElmStructExample(keywordMap);
    ItemsStructText(keywordMap, root);
    ReplaceAllKeeps("items");
    assert ElmName("items") == "items_elm";
    assert ChildStructs(cfg, root, 1) == ChildStructs(cfg, root, 0) + SubStructs(cfg, root.members[0]);
    assert SubStructs(cfg, root.members[0]) == Emit(cfg, first, "items_elm");
  }

  /** The struct inferred from the first element of the array above. */
  lemma ElmStructExample(keywordMap: map<string, string>)
    requires "v" !in keywordMap
    ensures Emit(Config(keywordMap, false), JsonObject([Member("v", Int32(1))]), "items_elm")
      == [Header("items_elm") + "    1: optional i32 v,\n" + "}\n"]
  {
    var cfg := Config(keywordMap, false);
    var first := JsonObject([Member("v", Int32(1))]);
    ReplaceAllKeeps("v");
    var fV := Field(1, Some("i32"), "v");
    assert Fields(keywordMap, first.members) == [fV];
    FieldsTextSingle(fV, false);
    VFieldText();
    assert ChildStructs(cfg, first, 1) == ChildStructs(cfg, first, 0) + SubStructs(cfg, first.members[0]);
  }

  /** The text of the struct holding the array above: a single `list<items_elm>` field. */
  lemma ItemsStructText(keywordMap: map<string, string>, root: JsonObject)
    requires "items" !in keywordMap
    requires root == JsonObject([Member("items", Arr([Obj(JsonObject([Member("v", Int32(1))])),
                                                      Obj(JsonObject([Member("v", Str("two"))]))]))])
    ensures StructText(Config(keywordMap, false), "Root", root)
      == Header("Root") + "    1: optional list<items_elm> items,\n" + "}\n"
  {
    ReplaceAllKeeps("items");
    assert "list<" + ElmName("items") + ">" == "list<items_elm>";
    var fItems := Field(1, Some("list<items_elm>"), "items");
    assert Fields(keywordMap, root.members) == [fItems];
    FieldsTextSingle(fItems, false);
    ItemsFieldText();
  }

  lemma VFieldText()
    ensures FieldText(Field(1, Some("i32"), "v"), false) == "    1: optional i32 v,\n"
  {
    FirstFieldText(Field(1, Some("i32"), "v"), false);
  }

  lemma ItemsFieldText()
    ensures FieldText(Field(1, Some("list<items_elm>"), "items"), false) == "    1: optional list<items_elm> items,\n"
  {
    FirstFieldText(Field(1, Some("list<items_elm>"), "items"), false);
  }

  /** The text of a field with id 1. */
  lemma FirstFieldText(f: Field, fieldRequired: bool)
    requires f.id == 1
    ensures FieldText(f, fieldRequired) ==
      (if fieldRequired then "    1: required " else "    1: optional ") +
      (if f.ty.Some? then f.ty.value + " " + f.name + ",\n" else "")
  {
    assert NatToString(1) == "1";
  }

  lemma FieldsTextSingle(f: Field, fieldRequired: bool)
    ensures FieldsText([f], fieldRequired) == FieldText(f, fieldRequired)
  {
    assert [f][..0] == [];
  }

  lemma FieldsTextPair(f0: Field, f1: Field, fieldRequired: bool)
    ensures FieldsText([f0, f1], fieldRequired) == FieldText(f0, fieldRequired) + FieldText(f1, fieldRequired)
  {
    assert [f0, f1][..1] == [f0];
    FieldsTextSingle(f0, fieldRequired);
  }

  /** The example keys are not in the reserved-word table, so the scenarios
      above hold with it. */
  lemma ExampleKeysNotInTable()
    ensures forall k | k in ExampleKeys :: k !in KeywordMap
  {
    ExampleKeysNotReserved();
    PutAllContents(KeywordPuts);
  }

  lemma NullThenIntWithTable()
    ensures StructText(Config(KeywordMap, false), "S", JsonObject([Member("v", Null), Member("id", Int32(7))]))
      == Header("S") + ("    1: optional " + "    1: optional i32 id,\n") + "}\n"
  {
    ExampleKeysNotInTable();
    NullThenIntExample(KeywordMap);
  }

  lemma ArrayOfObjectsWithTable()
    ensures Emit(Config(KeywordMap, false),
                 JsonObject([Member("items", Arr([Obj(JsonObject([Member("v", Int32(1))])),
                                                  Obj(JsonObject([Member("v", Str("two"))]))]))]), "Root")
      == [Header("items_elm") + "    1: optional i32 v,\n" + "}\n",
          Header("Root") + "    1: optional list<items_elm> items,\n" + "}\n"]
  {
    ExampleKeysNotInTable();
    ArrayOfObjectsExample(KeywordMap);
  }

  lemma NestedObjectWithTable()
    ensures Emit(Config(KeywordMap, true), JsonObject([Member("user", Obj(JsonObject([Member("name", Str("x"))])))]), "MyStruct")
      == [Header("user_obj") + "    1: required string name,\n" + "}\n",
          Header("MyStruct") + "    1: required user_obj user,\n" + "}\n"]
  {
    ExampleKeysNotInTable();
    NestedObjectExample(KeywordMap);
  }
}
