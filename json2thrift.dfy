/**
 * The struct emitter `obj2Thrift` of Json2Thrift, step by step as the source
 * runs it: a loop over the keys that extends the text of one struct and a
 * field-id counter, recursive calls that append the structs of nested objects
 * to the shared list first, and a final append of the struct itself.
 */
module Json2Thrift {
  import opened Wrappers
  import opened JsonTree
  import opened Decimal
  import opened Sanitizer
  import opened Emission

  /** The shared `List<String> structs` the emitter appends to. */
  class StringList {
    var items: seq<string>

    constructor ()
      ensures items == []
    {
      items := [];
    }

    /** `List.add`. */
    method Add(s: string)
      modifies this
      ensures items == old(items) + [s]
    {
      items := items + [s];
    }
  }

  /** `obj2Thrift(obj, structName, structs)`, reading the static table and flag
      from `cfg`: appends to `structs` the structs of the nested objects and then
      the struct of `obj` itself. */
  method Obj2Thrift(cfg: Config, obj: JsonObject, structName: string, structs: StringList)
    modifies structs
    ensures structs.items == old(structs.items) + Emit(cfg, obj, structName)
    decreases obj, 1
  {
    var struct := "struct " + structName + " {\n";
    var fieldId: nat := 1;
    var i := 0;
    Start(cfg, obj, structName);
    while i < |obj.members|
      invariant i <= |obj.members|
      invariant struct == Header(structName) + FieldsText(Fields(cfg.keywordMap, obj.members[..i]), cfg.fieldRequired)
      invariant fieldId == FieldCount(obj.members[..i]) + 1
      invariant structs.items == old(structs.items) + ChildStructs(cfg, obj, i)
    {
      struct, fieldId, i := VisitMember(cfg, obj, i, structName, struct, fieldId, structs, old(structs.items));
    }
    ghost var fieldsText := FieldsText(Fields(cfg.keywordMap, obj.members[..i]), cfg.fieldRequired);
    ghost var children := ChildStructs(cfg, obj, i);
    struct := struct + "}\n";
    structs.Add(struct);
    Finish(cfg, obj, structName, old(structs.items), children, fieldsText, struct, structs.items);
  }

  /** Before the first member: an empty field list, no field counted, no nested struct. */
  lemma Start(cfg: Config, obj: JsonObject, structName: string)
    ensures "struct " + structName + " {\n" == Header(structName) + FieldsText(Fields(cfg.keywordMap, obj.members[..0]), cfg.fieldRequired)
    ensures FieldCount(obj.members[..0]) == 0
    ensures ChildStructs(cfg, obj, 0) == []
  {
    assert obj.members[..0] == [];
  }

  /** One turn of the loop of `obj2Thrift`, over member `i`: maps the key,
      writes the field, and leaves the text and the counter as the loop
      invariant wants them for the first `i + 1` members. */
  method VisitMember(cfg: Config, obj: JsonObject, i: nat, structName: string, struct0: string, fieldId0: nat,
                     structs: StringList, ghost items0: seq<string>)
    returns (struct: string, fieldId: nat, next: nat)
    requires i < |obj.members|
    requires struct0 == Header(structName) + FieldsText(Fields(cfg.keywordMap, obj.members[..i]), cfg.fieldRequired)
    requires fieldId0 == FieldCount(obj.members[..i]) + 1
    requires structs.items == items0 + ChildStructs(cfg, obj, i)
    modifies structs
    ensures next == i + 1
    ensures struct == Header(structName) + FieldsText(Fields(cfg.keywordMap, obj.members[..next]), cfg.fieldRequired)
    ensures fieldId == FieldCount(obj.members[..next]) + 1
    ensures structs.items == items0 + ChildStructs(cfg, obj, next)
    decreases obj, 0
  {
    var key := obj.members[i].key;
    var mappedKey := KeyMapping(cfg.keywordMap, key);
    ghost var itemsBefore := structs.items;
    struct, fieldId := AppendField(cfg, struct0, fieldId0, mappedKey, obj.members[i].value, structs);
    next := i + 1;
    VisitStep(cfg, obj, i, structName, struct0, struct, fieldId0, fieldId, items0, itemsBefore, structs.items);
  }

  /** What one turn of the loop over member `i` establishes, from what writing
      that member's field did to the text, the counter and the list. */
  lemma VisitStep(cfg: Config, obj: JsonObject, i: nat, structName: string, struct0: string, struct: string,
                  fieldId0: nat, fieldId: nat, items0: seq<string>, before: seq<string>, after: seq<string>)
    requires i < |obj.members|
    requires struct0 == Header(structName) + FieldsText(Fields(cfg.keywordMap, obj.members[..i]), cfg.fieldRequired)
    requires fieldId0 == FieldCount(obj.members[..i]) + 1
    requires before == items0 + ChildStructs(cfg, obj, i)
    requires struct == struct0 + FieldText(Field(fieldId0, TypeToken(obj.members[i].value, KeyMapping(cfg.keywordMap, obj.members[i].key)),
                                            KeyMapping(cfg.keywordMap, obj.members[i].key)), cfg.fieldRequired)
    requires fieldId == fieldId0 + (if Recognized(obj.members[i].value) then 1 else 0)
    requires after == before + ValueStructs(cfg, obj.members[i].value, KeyMapping(cfg.keywordMap, obj.members[i].key))
    ensures struct == Header(structName) + FieldsText(Fields(cfg.keywordMap, obj.members[..i + 1]), cfg.fieldRequired)
    ensures fieldId == FieldCount(obj.members[..i + 1]) + 1
    ensures after == items0 + ChildStructs(cfg, obj, i + 1)
  {
    TextVisit(cfg.keywordMap, obj.members, i, structName, cfg.fieldRequired, struct0, struct);
    CountStep(obj.members, i);
    ItemsVisit(cfg, obj, i, items0, before, after);
  }

  /** One turn of the loop over member `i` appends that member's nested structs
      and moves the field counter past it. */
  lemma ItemsVisit(cfg: Config, obj: JsonObject, i: nat, items0: seq<string>, before: seq<string>, after: seq<string>)
    requires i < |obj.members|
    requires before == items0 + ChildStructs(cfg, obj, i)
    requires after == before + SubStructs(cfg, obj.members[i])
    ensures after == items0 + ChildStructs(cfg, obj, i + 1)
  {
    AppendAssoc(items0, ChildStructs(cfg, obj, i), SubStructs(cfg, obj.members[i]));
  }

  /** After the last member, closing the text and appending it completes `Emit`. */
  lemma Finish(cfg: Config, obj: JsonObject, structName: string, items0: seq<string>, children: seq<string>,
               fieldsText: string, struct: string, items: seq<string>)
    requires fieldsText == FieldsText(Fields(cfg.keywordMap, obj.members[..|obj.members|]), cfg.fieldRequired)
    requires children == ChildStructs(cfg, obj, |obj.members|)
    requires struct == Header(structName) + fieldsText + "}\n"
    requires items == items0 + children + [struct]
    ensures items == items0 + Emit(cfg, obj, structName)
  {
    assert obj.members[..|obj.members|] == obj.members;
    AppendAssoc(items0, children, [struct]);
  }

  /** The body of the loop of `obj2Thrift` for one key, whose mapped form is
      `mappedKey` and whose value is `o`: writes the field prefix, then the type
      and name the `instanceof` chain picks (recursing first for an object, or
      for an array whose first element is an object), and counts the field. */
  method AppendField(cfg: Config, struct0: string, fieldId0: nat, mappedKey: string, o: Json, structs: StringList)
    returns (struct: string, fieldId: nat)
    modifies structs
    ensures struct == struct0 + FieldText(Field(fieldId0, TypeToken(o, mappedKey), mappedKey), cfg.fieldRequired)
    ensures fieldId == fieldId0 + (if Recognized(o) then 1 else 0)
    ensures structs.items == old(structs.items) + ValueStructs(cfg, o, mappedKey)
    decreases o, 0
  {
    struct, fieldId := struct0, fieldId0;
    ghost var items0 := structs.items;
    struct := struct + "    " + NatToString(fieldId) + ": ";
    struct := struct + (if cfg.fieldRequired then "required " else "optional ");
    PrefixLine(struct0, struct, fieldId0, cfg.fieldRequired);
    ghost var prefixed := struct;
    if o.Obj? {
      var subName := mappedKey + "_obj";
      Obj2Thrift(cfg, o.obj, subName, structs);
      struct := struct + subName + " " + mappedKey + ",\n";
      fieldId := fieldId + 1;
      ObjectField(cfg, struct0, fieldId0, mappedKey, o, subName, prefixed, struct, fieldId, items0, structs.items);
    } else if o.Arr? {
      var arrObj := o.elems;
      if |arrObj| > 0 {
        var so := arrObj[0];
        if so.Obj? {
          var subName := mappedKey + "_elm";
          Obj2Thrift(cfg, so.obj, subName, structs);
          struct := struct + "list<" + subName + "> " + mappedKey + ",\n";
          fieldId := fieldId + 1;
          ListOfStructField(cfg, struct0, fieldId0, mappedKey, o, subName, prefixed, struct, fieldId, items0, structs.items);
        } else if so.Dbl? {
          struct := struct + "list<double> " + mappedKey + ",\n";
          fieldId := fieldId + 1;
          ElemField(cfg, struct0, fieldId0, mappedKey, o, "list<double>", "list<double> ", prefixed, struct, fieldId, items0, structs.items);
        } else if so.Int32? {
          struct := struct + "list<i32> " + mappedKey + ",\n";
          fieldId := fieldId + 1;
          ElemField(cfg, struct0, fieldId0, mappedKey, o, "list<i32>", "list<i32> ", prefixed, struct, fieldId, items0, structs.items);
        } else if so.Str? {
          struct := struct + "list<string> " + mappedKey + ",\n";
          fieldId := fieldId + 1;
          ElemField(cfg, struct0, fieldId0, mappedKey, o, "list<string>", "list<string> ", prefixed, struct, fieldId, items0, structs.items);
        } else if so.Bool? {
          struct := struct + "list<bool> " + mappedKey + ",\n";
          fieldId := fieldId + 1;
          ElemField(cfg, struct0, fieldId0, mappedKey, o, "list<bool>", "list<bool> ", prefixed, struct, fieldId, items0, structs.items);
        } else if so.Int64? {
          struct := struct + "list<i64> " + mappedKey + ",\n";
          fieldId := fieldId + 1;
          ElemField(cfg, struct0, fieldId0, mappedKey, o, "list<i64>", "list<i64> ", prefixed, struct, fieldId, items0, structs.items);
        } else {
          struct := struct + "list<string> " + mappedKey + ",\n";
          fieldId := fieldId + 1;
          ElemField(cfg, struct0, fieldId0, mappedKey, o, "list<string>", "list<string> ", prefixed, struct, fieldId, items0, structs.items);
        }
      } else {
        struct := struct + "list<string> " + mappedKey + ",\n";
        fieldId := fieldId + 1;
        TypedField(cfg, struct0, fieldId0, mappedKey, o, "list<string>", "list<string> ", prefixed, struct, fieldId, items0, structs.items);
      }
    } else if o.Dbl? {
      struct := struct + "double " + mappedKey + ",\n";
      fieldId := fieldId + 1;
      TypedField(cfg, struct0, fieldId0, mappedKey, o, "double", "double ", prefixed, struct, fieldId, items0, structs.items);
    } else if o.Int32? {
      struct := struct + "i32 " + mappedKey + ",\n";
      fieldId := fieldId + 1;
      TypedField(cfg, struct0, fieldId0, mappedKey, o, "i32", "i32 ", prefixed, struct, fieldId, items0, structs.items);
    } else if o.Str? {
      struct := struct + "string " + mappedKey + ",\n";
      fieldId := fieldId + 1;
      TypedField(cfg, struct0, fieldId0, mappedKey, o, "string", "string ", prefixed, struct, fieldId, items0, structs.items);
    } else if o.Bool? {
      struct := struct + "bool " + mappedKey + ",\n";
      fieldId := fieldId + 1;
      TypedField(cfg, struct0, fieldId0, mappedKey, o, "bool", "bool ", prefixed, struct, fieldId, items0, structs.items);
    } else if o.Int64? {
      struct := struct + "i64 " + mappedKey + ",\n";
      fieldId := fieldId + 1;
      TypedField(cfg, struct0, fieldId0, mappedKey, o, "i64", "i64 ", prefixed, struct, fieldId, items0, structs.items);
    } else {
      UntypedField(cfg, struct0, fieldId0, mappedKey, o, prefixed, struct, fieldId, items0, structs.items);
    }
  }

  // The lemmas below state `AppendField`'s postcondition for one branch each,
  // from what that branch wrote. They take the written type word (`"list<i32> "`)
  // as an argument only so that each branch's string reasoning stays small for
  // the verifier; they add nothing to what `AppendField` promises.

  /** A branch for a non-empty array whose first element is not an object:
      the list type of that element, and no struct appended. */
  lemma ElemField(cfg: Config, struct0: string, fieldId0: nat, mappedKey: string, o: Json, typeName: string, word: string,
                   prefixed: string, struct: string, fieldId: nat, items0: seq<string>, items: seq<string>)
    requires o.Arr? && |o.elems| > 0 && !o.elems[0].Obj? && typeName == ElementListType(o.elems[0], mappedKey)
    requires word == typeName + " "
    requires prefixed == struct0 + FieldPrefix(fieldId0, cfg.fieldRequired)
    requires struct == prefixed + word + mappedKey + ",\n"
    requires fieldId == fieldId0 + 1 && items == items0
    ensures struct == struct0 + FieldText(Field(fieldId0, TypeToken(o, mappedKey), mappedKey), cfg.fieldRequired)
    ensures fieldId == fieldId0 + (if Recognized(o) then 1 else 0)
    ensures items == items0 + ValueStructs(cfg, o, mappedKey)
  {
    FieldLine(struct0, FieldPrefix(fieldId0, cfg.fieldRequired), prefixed, struct, typeName, word, mappedKey);
  }

  /** The prefix written for every key is `FieldPrefix`. */
  lemma PrefixLine(before: string, prefixed: string, id: nat, fieldRequired: bool)
    requires prefixed == before + "    " + NatToString(id) + ": " + (if fieldRequired then "required " else "optional ")
    ensures prefixed == before + FieldPrefix(id, fieldRequired)
  {
  }

  /** A branch that writes a fixed type word and the mapped key, and appends no
      struct, has done what `AppendField` promises. */
  lemma TypedField(cfg: Config, struct0: string, fieldId0: nat, mappedKey: string, o: Json, typeName: string, word: string,
                   prefixed: string, struct: string, fieldId: nat, items0: seq<string>, items: seq<string>)
    requires TypeToken(o, mappedKey) == Some(typeName) && ValueStructs(cfg, o, mappedKey) == []
    requires word == typeName + " "
    requires prefixed == struct0 + FieldPrefix(fieldId0, cfg.fieldRequired)
    requires struct == prefixed + word + mappedKey + ",\n"
    requires fieldId == fieldId0 + 1 && items == items0
    ensures struct == struct0 + FieldText(Field(fieldId0, TypeToken(o, mappedKey), mappedKey), cfg.fieldRequired)
    ensures fieldId == fieldId0 + (if Recognized(o) then 1 else 0)
    ensures items == items0 + ValueStructs(cfg, o, mappedKey)
  {
    FieldLine(struct0, FieldPrefix(fieldId0, cfg.fieldRequired), prefixed, struct, typeName, word, mappedKey);
  }

  /** The branch for an object value. */
  lemma ObjectField(cfg: Config, struct0: string, fieldId0: nat, mappedKey: string, o: Json, subName: string,
                    prefixed: string, struct: string, fieldId: nat, items0: seq<string>, items: seq<string>)
    requires o.Obj? && subName == mappedKey + "_obj"
    requires prefixed == struct0 + FieldPrefix(fieldId0, cfg.fieldRequired)
    requires struct == prefixed + subName + " " + mappedKey + ",\n"
    requires fieldId == fieldId0 + 1 && items == items0 + Emit(cfg, o.obj, subName)
    ensures struct == struct0 + FieldText(Field(fieldId0, TypeToken(o, mappedKey), mappedKey), cfg.fieldRequired)
    ensures fieldId == fieldId0 + (if Recognized(o) then 1 else 0)
    ensures items == items0 + ValueStructs(cfg, o, mappedKey)
  {
    AppendAssoc(prefixed, subName, " ");
    FieldLine(struct0, FieldPrefix(fieldId0, cfg.fieldRequired), prefixed, struct, subName, subName + " ", mappedKey);
  }

  /** The branch for an array whose first element is an object. */
  lemma ListOfStructField(cfg: Config, struct0: string, fieldId0: nat, mappedKey: string, o: Json, subName: string,
                          prefixed: string, struct: string, fieldId: nat, items0: seq<string>, items: seq<string>)
    requires o.Arr? && |o.elems| > 0 && o.elems[0].Obj? && subName == mappedKey + "_elm"
    requires prefixed == struct0 + FieldPrefix(fieldId0, cfg.fieldRequired)
    requires struct == prefixed + "list<" + subName + "> " + mappedKey + ",\n"
    requires fieldId == fieldId0 + 1 && items == items0 + Emit(cfg, o.elems[0].obj, subName)
    ensures struct == struct0 + FieldText(Field(fieldId0, TypeToken(o, mappedKey), mappedKey), cfg.fieldRequired)
    ensures fieldId == fieldId0 + (if Recognized(o) then 1 else 0)
    ensures items == items0 + ValueStructs(cfg, o, mappedKey)
  {
    var typeName := "list<" + subName + ">";
    AppendAssoc("list<", subName, "> ");
    assert "> " == ">" + " ";
    AppendAssoc("list<" + subName, ">", " ");
    AppendAssoc(prefixed, "list<", subName);
    AppendAssoc(prefixed, "list<" + subName, "> ");
    FieldLine(struct0, FieldPrefix(fieldId0, cfg.fieldRequired), prefixed, struct, typeName, typeName + " ", mappedKey);
  }

  /** A value no branch matches leaves only the prefix behind and does not count. */
  lemma UntypedField(cfg: Config, struct0: string, fieldId0: nat, mappedKey: string, o: Json,
                     prefixed: string, struct: string, fieldId: nat, items0: seq<string>, items: seq<string>)
    requires !Recognized(o)
    requires prefixed == struct0 + FieldPrefix(fieldId0, cfg.fieldRequired)
    requires struct == prefixed && fieldId == fieldId0 && items == items0
    ensures struct == struct0 + FieldText(Field(fieldId0, TypeToken(o, mappedKey), mappedKey), cfg.fieldRequired)
    ensures fieldId == fieldId0 + (if Recognized(o) then 1 else 0)
    ensures items == items0 + ValueStructs(cfg, o, mappedKey)
  {
  }

  /** A line `prefixed + word + name + ",\n"` after the prefix `p`, where the
      word is the type followed by a space, is the prefix and then the field. */
  lemma FieldLine(struct0: string, p: string, prefixed: string, struct: string, typeName: string, word: string, name: string)
    requires prefixed == struct0 + p
    requires word == typeName + " "
    requires struct == prefixed + word + name + ",\n"
    ensures struct == struct0 + (p + (typeName + " " + name + ",\n"))
  {
  }

  /** One turn of the loop over member `i` extends the struct text by that member's field. */
  lemma TextVisit(keywordMap: map<string, string>, ms: seq<Member>, i: nat, structName: string, fieldRequired: bool,
                  before: string, after: string)
    requires i < |ms|
    requires before == Header(structName) + FieldsText(Fields(keywordMap, ms[..i]), fieldRequired)
    requires after == before +
      FieldText(Field(FieldCount(ms[..i]) + 1, TypeToken(ms[i].value, KeyMapping(keywordMap, ms[i].key)),
                      KeyMapping(keywordMap, ms[i].key)), fieldRequired)
    ensures after == Header(structName) + FieldsText(Fields(keywordMap, ms[..i + 1]), fieldRequired)
  {
    FieldStep(keywordMap, ms, i, fieldRequired);
    Stitch(Header(structName), FieldsText(Fields(keywordMap, ms[..i]), fieldRequired),
           FieldsText(Fields(keywordMap, ms[..i + 1]), fieldRequired),
           FieldText(Field(FieldCount(ms[..i]) + 1, TypeToken(ms[i].value, KeyMapping(keywordMap, ms[i].key)),
                           KeyMapping(keywordMap, ms[i].key)), fieldRequired),
           before, after);
  }

  lemma AppendAssoc<T>(a: seq<T>, b: seq<T>, c: seq<T>)
    ensures (a + b) + c == a + (b + c)
  {
  }

  lemma Stitch(h: string, t0: string, t1: string, ft: string, before: string, after: string)
    requires before == h + t0 && after == before + ft && t1 == t0 + ft
    ensures after == h + t1
  {
  }

  /** The part of `main` that runs the emitter: a fresh list, one call on the
      parsed root object, the list's contents (which `main` prints in order). */
  method Infer(fieldRequired: bool, root: JsonObject, structName: string) returns (out: seq<string>)
    ensures out == Emit(Config(KeywordMap, fieldRequired), root, structName)
  {
    var structs := new StringList();
    Obj2Thrift(Config(KeywordMap, fieldRequired), root, structName, structs);
    out := structs.items;
  }
}
