/**
 * What `obj2Thrift` of Json2Thrift produces, as functions of the JSON tree:
 * the type token of each value, the fields of one struct with their ids, the
 * text of one struct, and the whole sequence of struct texts one call appends
 * to the shared list (nested structs first, the struct of the call last).
 * The method in module Json2Thrift is proved to produce exactly these.
 */
module Emission {
  import opened Wrappers
  import opened JsonTree
  import opened Decimal
  import opened Sanitizer

  /** The static state of Json2Thrift that `obj2Thrift` reads: the reserved-word
      table `m_keywordMap` and the flag `fieldRequired` that `-r` sets. */
  datatype Config = Config(keywordMap: map<string, string>, fieldRequired: bool)

  /** The requiredness word written after every field id; one flag for every field. */
  function Requiredness(fieldRequired: bool): string {
    if fieldRequired then "required " else "optional "
  }

  /** Name of the struct emitted for an object value under the mapped key. */
  function ObjName(mappedKey: string): string {
    mappedKey + "_obj"
  }

  /** Name of the struct emitted for the first element of an array under the mapped key. */
  function ElmName(mappedKey: string): string {
    mappedKey + "_elm"
  }

  /** The classes that have a scalar IDL type. */
  predicate IsScalar(v: Json) {
    v.Dbl? || v.Int32? || v.Str? || v.Bool? || v.Int64?
  }

  /** The list type of a non-empty array, decided by its first element alone. */
  function ElementListType(first: Json, mappedKey: string): string {
    if first.Obj? then "list<" + ElmName(mappedKey) + ">"
    else if first.Dbl? then "list<double>"
    else if first.Int32? then "list<i32>"
    else if first.Str? then "list<string>"
    else if first.Bool? then "list<bool>"
    else if first.Int64? then "list<i64>"
    else "list<string>"
  }

  /** The type token written for a value, tested in the order of the `instanceof`
      chain; None when no branch matches (JSON null, an unknown class). */
  function TypeToken(v: Json, mappedKey: string): (r: Option<string>)
    ensures r.Some? <==> Recognized(v)
  {
    if v.Obj? then Some(ObjName(mappedKey))
    else if v.Arr? then
      Some(if |v.elems| > 0 then ElementListType(v.elems[0], mappedKey) else "list<string>")
    else if v.Dbl? then Some("double")
    else if v.Int32? then Some("i32")
    else if v.Str? then Some("string")
    else if v.Bool? then Some("bool")
    else if v.Int64? then Some("i64")
    else None
  }

  /** One field as written: its id, its type token (None: only the prefix is
      written), its mapped name. */
  datatype Field = Field(id: nat, ty: Option<string>, name: string)

  /** The number of members whose value takes a branch, i.e. by how much the
      field-id counter grows over them. */
  function FieldCount(ms: seq<Member>): nat {
    if ms == [] then 0
    else FieldCount(ms[..|ms| - 1]) + (if Recognized(ms[|ms| - 1].value) then 1 else 0)
  }

  /** The fields of a struct whose members are `ms`, in key order. */
  function Fields(keywordMap: map<string, string>, ms: seq<Member>): (fs: seq<Field>)
    ensures |fs| == |ms|
  {
    if ms == [] then []
    else
      var m := ms[|ms| - 1];
      var mappedKey := KeyMapping(keywordMap, m.key);
      Fields(keywordMap, ms[..|ms| - 1]) + [Field(FieldCount(ms[..|ms| - 1]) + 1, TypeToken(m.value, mappedKey), mappedKey)]
  }

  /** The ids of the fields that got a type, in order. */
  function TypedIds(fs: seq<Field>): seq<nat> {
    if fs == [] then []
    else TypedIds(fs[..|fs| - 1]) + (if fs[|fs| - 1].ty.Some? then [fs[|fs| - 1].id] else [])
  }

  /** The prefix written for every key before its value is classified. */
  function FieldPrefix(id: nat, fieldRequired: bool): string {
    "    " + NatToString(id) + ": " + Requiredness(fieldRequired)
  }

  /** The text written for one field. */
  function FieldText(f: Field, fieldRequired: bool): string {
    FieldPrefix(f.id, fieldRequired) + (if f.ty.Some? then f.ty.value + " " + f.name + ",\n" else "")
  }

  function FieldsText(fs: seq<Field>, fieldRequired: bool): string {
    if fs == [] then ""
    else FieldsText(fs[..|fs| - 1], fieldRequired) + FieldText(fs[|fs| - 1], fieldRequired)
  }

  function Header(structName: string): string {
    "struct " + structName + " {\n"
  }

  /** The text of the struct named `structName` for the object `o`. */
  function StructText(cfg: Config, structName: string, o: JsonObject): string {
    Header(structName) + FieldsText(Fields(cfg.keywordMap, o.members), cfg.fieldRequired) + "}\n"
  }

  /** The struct texts one call of `obj2Thrift` appends: those of the nested
      objects, member by member, then its own. */
  function Emit(cfg: Config, o: JsonObject, structName: string): seq<string>
    decreases o, 1
  {
    ChildStructs(cfg, o, |o.members|) + [StructText(cfg, structName, o)]
  }

  /** The struct texts appended while the first `n` members of `o` are visited. */
  function ChildStructs(cfg: Config, o: JsonObject, n: nat): seq<string>
    requires n <= |o.members|
    decreases o, 0, n
  {
    if n == 0 then [] else ChildStructs(cfg, o, n - 1) + SubStructs(cfg, o.members[n - 1])
  }

  /** The struct texts appended while one member is visited. */
  function SubStructs(cfg: Config, m: Member): seq<string>
    decreases m
  {
    ValueStructs(cfg, m.value, KeyMapping(cfg.keywordMap, m.key))
  }

  /** The struct texts appended for a value under the mapped key: the recursion on
      an object value, or on an array's first element when it is an object. */
  function ValueStructs(cfg: Config, v: Json, mappedKey: string): seq<string>
    decreases v
  {
    match v
    case Obj(c) => Emit(cfg, c, ObjName(mappedKey))
    case Arr(elems) =>
      if |elems| > 0 && elems[0].Obj? then Emit(cfg, elems[0].obj, ElmName(mappedKey)) else []
    case _ => []
  }

  /** The number of objects nested in `o` that get a struct of their own: object
      values, and objects that are the first element of an array, recursively. */
  function NestedCount(o: JsonObject): nat
    decreases o, 1
  {
    NestedIn(o, |o.members|)
  }

  function NestedIn(o: JsonObject, n: nat): nat
    requires n <= |o.members|
    decreases o, 0, n
  {
    if n == 0 then 0 else NestedIn(o, n - 1) + NestedUnder(o.members[n - 1])
  }

  function NestedUnder(m: Member): nat
    decreases m
  {
    match m.value
    case Obj(c) => 1 + NestedCount(c)
    case Arr(elems) => if |elems| > 0 && elems[0].Obj? then 1 + NestedCount(elems[0].obj) else 0
    case _ => 0
  }

  /** A text that has the shape of a struct block. */
  predicate IsStructBlock(s: string) {
    |s| >= 9 && s[..7] == "struct " && s[|s| - 2..] == "}\n"
  }

  /** What visiting member `i` adds to the field count. */
  lemma CountStep(ms: seq<Member>, i: nat)
    requires i < |ms|
    ensures FieldCount(ms[..i + 1]) == FieldCount(ms[..i]) + (if Recognized(ms[i].value) then 1 else 0)
  {
    assert ms[..i + 1][..i] == ms[..i];
  }

  /** What visiting member `i` adds to the struct text. */
  lemma FieldStep(keywordMap: map<string, string>, ms: seq<Member>, i: nat, fieldRequired: bool)
    requires i < |ms|
    ensures FieldsText(Fields(keywordMap, ms[..i + 1]), fieldRequired) ==
      FieldsText(Fields(keywordMap, ms[..i]), fieldRequired) +
      FieldText(Field(FieldCount(ms[..i]) + 1, TypeToken(ms[i].value, KeyMapping(keywordMap, ms[i].key)),
                      KeyMapping(keywordMap, ms[i].key)), fieldRequired)
  {
    assert ms[..i + 1][..i] == ms[..i];
    var fs := Fields(keywordMap, ms[..i + 1]);
    assert fs[..|fs| - 1] == Fields(keywordMap, ms[..i]);
  }
}
