# Json2Thrift: the struct emitter, modelled and proved in Dafny

Json2Thrift reads a JSON sample document and prints Thrift IDL `struct`
definitions that would describe it. This project models the two parts of
`src/org/apache/thrift/Json2Thrift.java` that do the work:

- **`keyMapping`** turns a raw JSON key into a safe field name. A key that is in
  the reserved-word table `m_keywordMap` is replaced by its table entry. The
  table lists words reserved in the Thrift IDL and in its target languages, and
  each entry is the key wrapped in underscores. Any other key has each `-`,
  `$`, `*` and `:` replaced by `_`.
- **`obj2Thrift`** walks one JSON object, key by key. It builds the text
  `struct <name> {\n ... }\n` by string concatenation and counts field ids from 1.
  For an object value it first recurses, under the name `<mappedKey>_obj`. For
  an array whose first element is an object, it recurses on that element only,
  under the name `<mappedKey>_elm`. It then appends its own struct text to a
  shared `List<String>`. Nested structs therefore come before their parent.

The files are:

- `json_tree.dfy` (module `JsonTree`): the parsed JSON tree. There is one
  alternative per Java class that the `instanceof` chain tests. `Null` stands
  for `JSONObject.NULL`. `Other` stands for any number class that matches no
  test.
- `decimal.dfy` (module `Decimal`): `Integer.toString` for the field id, with
  its digits read back.
- `sanitizer.dfy` (module `Sanitizer`): the table, built from the keys in the
  order the static block puts them, and `keyMapping`.
- `emission.dfy` (module `Emission`): specification functions for what
  `obj2Thrift` writes. They give the type token of a value, the fields of one
  struct with their ids, the text of one struct, and the whole sequence of
  struct texts one call appends.
- `json2thrift.dfy` (module `Json2Thrift`): `obj2Thrift` as an imperative
  recursive method, working as the source does. A class `StringList` holds the
  shared list. The method is proved to append exactly `Emit` of its arguments.
- `properties.dfy` (module `Properties`): the properties the emitter promises,
  proved about the specification functions, plus worked scenarios.

Some static state of the class is passed in a `Config` value. This covers
`m_keywordMap` and the flag `m_bFieldRequired` that `-r` sets. `Infer` runs the
emitter with the real table.

A null-valued field is not omitted. Lines 90-91 write the `"    <id>: <req> "` prefix before
the value is classified, and no branch matches null, so the prefix stays in the
text. The next field is then written on the same line, with the same id;
`NullThenIntExample` shows the resulting text.

## Model

| member | source | states |
|---|---|---|
| Sanitizer.PutAll | src/org/apache/thrift/Json2Thrift.java:223-377 | the map a run of `put(key, "_" + key + "_")` calls builds from the empty map; with the 152 keys of the static block it is the constant `KeywordMap`. Specified by `PutAllContents` |
| Sanitizer.ReplaceAll | src/org/apache/thrift/Json2Thrift.java:76-79 | the chain of the four `replace` calls, character by character. Specified by `ReplaceAllSpec`, `ReplaceAllKeeps` and `ReplaceAllIdempotent` |
| Sanitizer.KeyMapping | src/org/apache/thrift/Json2Thrift.java:72-81 | `keyMapping` reading the given table: the entry for a key in the table, looked up on the raw key, and the replace chain on any other key. Specified by `KeyMappingReserved` and `KeyMappingUnreserved` |
| Sanitizer.PutAllContents | src/org/apache/thrift/Json2Thrift.java:223-377 | the table built by the run of puts holds exactly the keys put (repeated puts of `public` and `union` included), each under `"_" + key + "_"` |
| Sanitizer.ReplaceAllSpec | src/org/apache/thrift/Json2Thrift.java:76-79 | the replace chain keeps the length, turns each of `-`, `$`, `*`, `:` into `_` where it stood, keeps every other character, and leaves none of the four |
| Sanitizer.ReplaceAllKeeps | src/org/apache/thrift/Json2Thrift.java:76-79 | a key with none of the four characters passes the chain unchanged |
| Sanitizer.ReplaceAllIdempotent | src/org/apache/thrift/Json2Thrift.java:76-79 | applying the chain twice gives the same as once |
| Sanitizer.KeyMappingReserved | src/org/apache/thrift/Json2Thrift.java:72-75 | a key that the static block puts maps to `"_" + key + "_"` |
| Sanitizer.KeyMappingUnreserved | src/org/apache/thrift/Json2Thrift.java:72-80 | any other key maps to a name of the same length, with the four characters replaced by `_`, every other character kept, and none of the four left |
| Sanitizer.ExampleKeysNotReserved | src/org/apache/thrift/Json2Thrift.java:225-376 | none of the keys used in the scenarios is put by the static block |
| Sanitizer.ExampleKeyNotReserved | src/org/apache/thrift/Json2Thrift.java:73-80 | such a key misses the table and goes through the replace chain |
| Sanitizer.RawKeyLookup | src/org/apache/thrift/Json2Thrift.java:73-79 | the lookup uses the raw key: `cpp-namespace` becomes `cpp_namespace`, while `cpp_namespace` itself maps to `_cpp_namespace_` |
| Sanitizer.CppNamespaceIsDirective | src/org/apache/thrift/Json2Thrift.java:228 | `cpp_namespace` is one of the keys put |
| Sanitizer.ReservedDirective | src/org/apache/thrift/Json2Thrift.java:73-74 | `cpp_namespace` maps to `_cpp_namespace_` |
| Sanitizer.StructIsKeyword | src/org/apache/thrift/Json2Thrift.java:263 | `struct` is one of the keys put |
| Sanitizer.LineIsMagicConstant | src/org/apache/thrift/Json2Thrift.java:280 | `__LINE__` is one of the keys put |
| Sanitizer.ReservedKeyword | src/org/apache/thrift/Json2Thrift.java:73-74 | `struct` maps to `_struct_` |
| Sanitizer.ReservedMagicConstant | src/org/apache/thrift/Json2Thrift.java:73-74 | `__LINE__` maps to `___LINE___` |
| Sanitizer.ReplacementExample | src/org/apache/thrift/Json2Thrift.java:76-80 | `a:b$c*d` maps to `a_b_c_d` |
| Decimal.NatToString | src/org/apache/thrift/Json2Thrift.java:90 | the decimal text of the field id is never empty |
| Decimal.NatToStringDigits | src/org/apache/thrift/Json2Thrift.java:90 | that text is digits only, with a leading `0` only for zero |
| Decimal.NatToStringRoundTrip | src/org/apache/thrift/Json2Thrift.java:90 | reading those digits back gives the id |
| Decimal.NatToStringInjective | src/org/apache/thrift/Json2Thrift.java:90 | distinct ids print as distinct texts |
| Emission.TypeToken | src/org/apache/thrift/Json2Thrift.java:95-159 | a value gets a type token exactly when some branch of the `instanceof` chain matches it, that is, when it is not null and not of an unknown class |
| Emission.Fields | src/org/apache/thrift/Json2Thrift.java:86-160 | the object gives as many fields as it has members |
| Emission.CountStep | src/org/apache/thrift/Json2Thrift.java:85-160 | visiting one more member raises the field count by one exactly when its value takes a branch |
| Emission.FieldStep | src/org/apache/thrift/Json2Thrift.java:88-160 | visiting one more member adds exactly that member's field text to the struct text |
| Emission.FieldPrefix | src/org/apache/thrift/Json2Thrift.java:90-91 | the text written for every key before its value is classified: four spaces, the decimal id, `": "`, and `required ` or `optional ` by the flag. Specified by `Properties.FieldPrefixReadBack` |
| Emission.FieldText | src/org/apache/thrift/Json2Thrift.java:90-159 | the prefix, then for a value that takes a branch its type token, a space, the mapped key and `",\n"`; for any other value nothing more. Specified by `Properties.TypedFieldLine` and `Properties.UntypedFieldLine` |
| Emission.StructText | src/org/apache/thrift/Json2Thrift.java:84-165 | the header `"struct " + name + " {\n"`, the text of every field in key order, and `"}\n"`. Specified by `Properties.StructTextShape` and `Properties.FieldsAt` |
| Emission.Emit | src/org/apache/thrift/Json2Thrift.java:83-167 | the strings one call appends: the structs of the nested objects member by member, then its own struct text. `Json2Thrift.Obj2Thrift` is proved to append exactly these; specified by `Properties.EmitCount`, `Properties.EmitBlocks` and `Properties.ChildBeforeParent` |
| Emission.ValueStructs | src/org/apache/thrift/Json2Thrift.java:95-108 | the strings appended for one value: `Emit` of an object value under `mappedKey_obj`, `Emit` of an array's first element under `mappedKey_elm` when that element is an object, nothing otherwise. Specified by `Properties.MemberCount`, `Properties.MemberBlocks` and `Properties.ArrayTailIgnoredStructs` |
| Json2Thrift.StringList.constructor | src/org/apache/thrift/Json2Thrift.java:173 | a new list is empty |
| Json2Thrift.StringList.Add | src/org/apache/thrift/Json2Thrift.java:166 | `add` puts the string at the end and keeps every earlier entry |
| Json2Thrift.Obj2Thrift | src/org/apache/thrift/Json2Thrift.java:83-167 | the call keeps the old list as a prefix and appends exactly `Emit`: the nested structs member by member, then its own text, header first and `"}\n"` last; the loop keeps the text, the counter and the list in step with the first `i` members |
| Json2Thrift.Start | src/org/apache/thrift/Json2Thrift.java:84-87 | before the first key, the struct text is the header alone, the counter stands at 1 and no nested struct has been appended |
| Json2Thrift.VisitMember | src/org/apache/thrift/Json2Thrift.java:88-160 | one turn of the loop maps the key, extends the text by that member's field, moves the counter past it, and appends that member's nested structs; it returns the index of the next member, for the first `i + 1` members |
| Json2Thrift.VisitStep | src/org/apache/thrift/Json2Thrift.java:88-160 | what writing member `i`'s field did to the text, the counter and the list gives the loop invariant for the first `i + 1` members |
| Json2Thrift.AppendField | src/org/apache/thrift/Json2Thrift.java:90-160 | the loop body after the key mapping writes the prefix, then the type token and name; for an object value it recurses first; it counts the field only when a branch matched |
| Json2Thrift.Infer | src/org/apache/thrift/Json2Thrift.java:216 | the part of `main` at lines 173 and 216: from an empty list, one call on the root with the real table yields exactly `Emit` of the root |
| Properties.FieldsAt | src/org/apache/thrift/Json2Thrift.java:85-160 | the fields follow the members in key order: field `j` has the mapped key of member `j` as its name, the type token of its value, and as id one more than the number of earlier members whose value took a branch |
| Properties.FieldAt | src/org/apache/thrift/Json2Thrift.java:85-160 | the same for one position `j`, by induction on the members |
| Properties.FieldCountBound | src/org/apache/thrift/Json2Thrift.java:85-160 | the counter grows by at most one per member |
| Properties.FieldCountAll | src/org/apache/thrift/Json2Thrift.java:85-160 | the count equals the number of members exactly when every value took a branch |
| Properties.TypedIdsContiguous | src/org/apache/thrift/Json2Thrift.java:85-160 | the ids of the fields that got a type are 1, 2, ..., n in key order |
| Properties.IdsWithoutNulls | src/org/apache/thrift/Json2Thrift.java:85-160 | when no value is null or of an unknown class, field `j` has id `j + 1` and a type |
| Properties.NextId | src/org/apache/thrift/Json2Thrift.java:90-160 | a field has no type exactly when its value took no branch; the next field's id is one more after a matched value and the same after an unmatched one |
| Properties.LeadingDigitsOf | src/org/apache/thrift/Json2Thrift.java:90 | digits followed by the `:` of the prefix are read back whole |
| Properties.FieldPrefixReadBack | src/org/apache/thrift/Json2Thrift.java:90-91 | every field text starts with four spaces, then the id, which reads back as the id, then `": "`, then `required ` if the flag is set and `optional ` otherwise |
| Properties.TypedFieldLine | src/org/apache/thrift/Json2Thrift.java:98-159 | a field with a type has the type token right after its prefix and ends with `" " + mappedKey + ",\n"` |
| Properties.UntypedFieldLine | src/org/apache/thrift/Json2Thrift.java:90-91 | a field without a type is its prefix alone |
| Properties.ArrayTailIgnored | src/org/apache/thrift/Json2Thrift.java:101-105 | the type token of an array depends on its first element alone |
| Properties.ArrayTailIgnoredStructs | src/org/apache/thrift/Json2Thrift.java:104-108 | the structs appended for an array depend on its first element alone |
| Properties.ListOfFirst | src/org/apache/thrift/Json2Thrift.java:104-135 | a non-empty array is `list<` of its first element's scalar token `>`, or `list<mappedKey_elm>` for an object, or `list<string>` for anything else |
| Properties.EmptyArrayIsListOfString | src/org/apache/thrift/Json2Thrift.java:137-140 | an empty array is `list<string>` |
| Properties.MixedArrayExample | src/org/apache/thrift/Json2Thrift.java:104-118 | `[1, "a", 2.0]` is `list<i32>` |
| Properties.NestedArrayExample | src/org/apache/thrift/Json2Thrift.java:132-135 | an array of arrays, or one that starts with null, is `list<string>` |
| Properties.StructTextShape | src/org/apache/thrift/Json2Thrift.java:84 | every struct text starts with `"struct " + structName + " {\n"` and ends with `"}\n"` (line 165) |
| Properties.EmitCount | src/org/apache/thrift/Json2Thrift.java:83-167 | one call appends one struct for each nested object it reaches, counting object values and object first elements of arrays recursively, plus its own |
| Properties.ChildCount | src/org/apache/thrift/Json2Thrift.java:87-160 | the first `n` members append one struct per nested object under them |
| Properties.MemberCount | src/org/apache/thrift/Json2Thrift.java:95-108 | one member appends one struct per nested object under it |
| Properties.EmitBlocks | src/org/apache/thrift/Json2Thrift.java:165-166 | every string one call appends is a struct block, and the last one is the call's own struct |
| Properties.ChildBlocks | src/org/apache/thrift/Json2Thrift.java:87-160 | every string appended for the first `n` members is a struct block |
| Properties.MemberBlocks | src/org/apache/thrift/Json2Thrift.java:95-108 | every string appended for one member is a struct block |
| Properties.ChildBeforeParent | src/org/apache/thrift/Json2Thrift.java:96-108 | the struct of a member's nested object, named `mappedKey_obj` or `mappedKey_elm`, is appended before the parent's struct, which comes last |
| Properties.ChildStructIn | src/org/apache/thrift/Json2Thrift.java:96-108 | that child struct is among those appended while the members are visited |
| Properties.NullThenIntFields | src/org/apache/thrift/Json2Thrift.java:90-160 | for `{"v": null, "id": 7}`, the null field has id 1 and no type, and the next field has id 1 again |
| Properties.NullThenIntExample | src/org/apache/thrift/Json2Thrift.java:84-166 | the text of that struct keeps the prefix `    1: optional ` of the null field, followed directly by `    1: optional i32 id,\n` |
| Properties.NestedObjectExample | src/org/apache/thrift/Json2Thrift.java:95-100 | `{"user": {"name": "x"}}` appends `user_obj` first, then the root with field `1: required user_obj user` |
| Properties.ArrayOfObjectsExample | src/org/apache/thrift/Json2Thrift.java:104-110 | `{"items": [{"v": 1}, {"v": "two"}]}` appends `items_elm`, inferred from the first element alone, then the root with field `1: optional list<items_elm> items` |
| Properties.ElmStructExample | src/org/apache/thrift/Json2Thrift.java:104-108 | the struct `items_elm` of that scenario has the single field `1: optional i32 v` |
| Properties.ItemsStructText | src/org/apache/thrift/Json2Thrift.java:104-110 | the root struct of that scenario has the single field `1: optional list<items_elm> items` |
| Properties.ExampleKeysNotInTable | src/org/apache/thrift/Json2Thrift.java:223-377 | the scenario keys are not in the table |
| Properties.NullThenIntWithTable | src/org/apache/thrift/Json2Thrift.java:84-166 | the null scenario holds with the real table |
| Properties.NestedObjectWithTable | src/org/apache/thrift/Json2Thrift.java:95-100 | the nested-object scenario holds with the real table |
| Properties.ArrayOfObjectsWithTable | src/org/apache/thrift/Json2Thrift.java:104-110 | the array-of-objects scenario holds with the real table |

## Left out

- `main`'s command-line parsing and its setting of `m_bFieldRequired` (lines 169-201): the flag is a parameter of `Config` and of `Infer`. The default struct name `DEFAULT_STRUCT_NAME` (line 44) belongs to that parsing; `Infer` takes the struct name as a parameter.
- `readFile` (lines 53-70), `printHelp` (lines 46-51), the banner and the printing loop (lines 217-221): these are console and file I/O. `Infer` returns the list that `main` prints.
- Parsing of the JSON text by `new JSONObject(inputString)` (line 211): this is a foreign library. The model takes the parsed tree as input.
- Which number class org.json produces for a number: this is decided by the library. The tree carries the class as a tag (`Int32`, `Int64`, `Dbl`, `Other`).
- The order of `obj.keys()` (line 86): this is decided by org.json's internal map. The members of a `JsonObject` are given in the order the iterator yields them. Keys within one object are taken to be distinct, as in a JSONObject, so each member's value is `obj.get(key)`.
- The `JSONException` catch (lines 161-163): it cannot fire, because the keys come from the object's own iterator and `arrObj.get(0)` is guarded by `length() > 0`. It only writes to stderr.
- Floating point: a `Double` is a type tag only, and its value plays no part.
- Strings: keys and texts are Dafny strings of Unicode scalar values, while a Java `String` holds UTF-16 code units. A key with a lone surrogate, which org.json can decode from `\uD800`, cannot be represented; for every other key the output is the same.
- Obj2Thrift: the counter `fieldId` is a Java `Integer`. Its wrap-around after 2^31 - 1 keys is not modelled, and the id is an unbounded `nat`.
- Obj2Thrift: the body of the `while` loop is written as the method `VisitMember` (the key mapping) and the method `AppendField` (the `instanceof` chain). These split the one Java method. Each method's contract is what that part of the loop does. `VisitMember` also hands back the index of the next member, which stands for the iterator's advance.
- Sanitizer.KeyMapping: `Config` passes the table in, so `keyMapping` reads it as a parameter rather than as a static field. `Infer` and the `Sanitizer` lemmas use the real table `KeywordMap`.
