/**
 * The identifier sanitizer `keyMapping` of Json2Thrift: a JSON key that is a
 * reserved word of the Thrift IDL or of one of its target languages is replaced
 * by its entry in the reserved-word table; any other key has each of `-`, `$`,
 * `*` and `:` replaced by `_`.
 */
module Sanitizer {
  // The static block that fills `m_keywordMap` puts, key after key, the value
  // "_" + key + "_". It is modelled as the sequence of keys put (grouped as the
  // block lists them, repeats included) and the map those puts build. Each
  // group but the shortest is split into a head and a tail, and the lemmas
  // about keys absent from the table go half by half; these split points are
  // not in the Java block and are there only to keep each proof small.

  /** Thrift IDL literals and namespace directives: the keys put at lines 225-246, in order. */
  const IdlDirectives: seq<string> := IdlDirectivesHead + IdlDirectivesTail

  const IdlDirectivesHead: seq<string> := [
    "false", "true", "namespace", "cpp_namespace", "cpp_include", "cpp_type", "java_package",
    "cocoa_prefix", "csharp_namespace", "delphi_namespace", "php_namespace"
  ]

  const IdlDirectivesTail: seq<string> := [
    "py_module", "perl_package", "ruby_namespace", "smalltalk_category", "smalltalk_prefix", "xsd_all", "xsd_optional",
    "xsd_nillable", "xsd_namespace", "xsd_attrs", "include"
  ]

  /** Thrift IDL base types and keywords: the keys put at lines 247-275, in order. */
  const IdlKeywords: seq<string> := IdlKeywordsHead + IdlKeywordsTail

  const IdlKeywordsHead: seq<string> := [
    "void", "bool", "byte", "i16", "i32", "i64", "double",
    "string", "binary", "slist", "senum", "map", "list", "set"
  ]

  const IdlKeywordsTail: seq<string> := [
    "oneway", "typedef", "struct", "union", "exception", "extends", "throws",
    "service", "enum", "const", "required", "optional", "async", "BEGIN",
    "END"
  ]

  /** PHP magic constants: the keys put at lines 276-282, in order. */
  const MagicConstants: seq<string> := [
    "__CLASS__", "__DIR__", "__FILE__", "__FUNCTION__", "__LINE__", "__METHOD__", "__NAMESPACE__"
  ]

  /** Keywords of the target languages, abstract .. endwhile: the keys put at lines 283-313, in order. */
  const LanguageWordsAToE: seq<string> := LanguageWordsAToEHead + LanguageWordsAToETail

  const LanguageWordsAToEHead: seq<string> := [
    "abstract", "alias", "and", "args", "as", "assert", "begin",
    "break", "case", "catch", "class", "clone", "continue", "declare",
    "def"
  ]

  const LanguageWordsAToETail: seq<string> := [
    "default", "del", "delete", "do", "dynamic", "elif", "else",
    "elseif", "elsif", "end", "enddeclare", "endfor", "endforeach", "endif",
    "endswitch", "endwhile"
  ]

  /** Keywords of the target languages, ensure .. protected: the keys put at lines 314-345, in order. */
  const LanguageWordsEToP: seq<string> := LanguageWordsEToPHead + LanguageWordsEToPTail

  const LanguageWordsEToPHead: seq<string> := [
    "ensure", "except", "exec", "finally", "float", "for", "foreach",
    "function", "global", "goto", "if", "implements", "import", "in",
    "inline", "instanceof"
  ]

  const LanguageWordsEToPTail: seq<string> := [
    "interface", "is", "lambda", "module", "native", "new", "next",
    "nil", "not", "or", "pass", "public", "print", "private",
    "protected", "public"
  ]

  /** Keywords of the target languages, raise .. yield: the keys put at lines 346-376, in order. */
  const LanguageWordsRToY: seq<string> := LanguageWordsRToYHead + LanguageWordsRToYTail

  const LanguageWordsRToYHead: seq<string> := [
    "raise", "redo", "rescue", "retry", "register", "return", "self",
    "sizeof", "static", "super", "switch", "synchronized", "then", "this",
    "throw"
  ]

  const LanguageWordsRToYTail: seq<string> := [
    "transient", "try", "undef", "union", "unless", "unsigned", "until",
    "use", "var", "virtual", "volatile", "when", "while", "with",
    "xor", "yield"
  ]

  /** The keys of every put of the static block, in order. */
  const KeywordPuts: seq<string> :=
    IdlDirectives + IdlKeywords + MagicConstants + LanguageWordsAToE + LanguageWordsEToP + LanguageWordsRToY

  /** The map a run of `m_keywordMap.put(key, "_" + key + "_")` calls builds. */
  function PutAll(keys: seq<string>): map<string, string>
  {
    if keys == [] then map[]
    else PutAll(keys[..|keys| - 1])[keys[|keys| - 1] := "_" + keys[|keys| - 1] + "_"]
  }

  /** The reserved-word table `m_keywordMap`. */
  const KeywordMap: map<string, string> := PutAll(KeywordPuts)

  /** The table holds exactly the keys put, each under its wrapped form. */
  lemma {:induction false} PutAllContents(keys: seq<string>)
    ensures forall k :: k in PutAll(keys) <==> k in keys
    ensures forall k | k in PutAll(keys) :: PutAll(keys)[k] == "_" + k + "_"
  {
    if keys != [] {
      var init := keys[..|keys| - 1];
      PutAllContents(init);
      assert keys == init + [keys[|keys| - 1]];
    }
  }

  /** The characters `keyMapping` rewrites to `_`. */
  predicate IsReplaced(c: char) {
    c == '-' || c == '$' || c == '*' || c == ':'
  }

  /** `s.replace(from, to)` for one-character strings: every `from` becomes `to`. */
  function ReplaceChar(s: string, from: char, to: char): string
  {
    seq(|s|, i requires 0 <= i < |s| => if s[i] == from then to else s[i])
  }

  /** The chain of four `replace` calls applied to a key that is not reserved. */
  function ReplaceAll(key: string): string
  {
    ReplaceChar(ReplaceChar(ReplaceChar(ReplaceChar(key, '-', '_'), '$', '_'), '*', '_'), ':', '_')
  }

  /** Each character of the key is kept, except the four replaced ones, which become `_`. */
  lemma ReplaceAllSpec(key: string)
    ensures |ReplaceAll(key)| == |key|
    ensures forall i | 0 <= i < |key| :: ReplaceAll(key)[i] == (if IsReplaced(key[i]) then '_' else key[i])
    ensures forall i | 0 <= i < |key| :: !IsReplaced(ReplaceAll(key)[i])
  {
  }

  /** A key without any of the four characters passes the chain unchanged. */
  lemma ReplaceAllKeeps(key: string)
    requires forall i | 0 <= i < |key| :: !IsReplaced(key[i])
    ensures ReplaceAll(key) == key
  {
    ReplaceAllSpec(key);
  }

  /** The chain applied twice does no more than once. */
  lemma ReplaceAllIdempotent(key: string)
    ensures ReplaceAll(ReplaceAll(key)) == ReplaceAll(key)
  {
    ReplaceAllSpec(key);
    ReplaceAllKeeps(ReplaceAll(key));
  }

  /** `keyMapping(key)`, reading the table `keywordMap`: the entry for a key in the
      table (looked up on the raw key), the chain of replacements otherwise. */
  function KeyMapping(keywordMap: map<string, string>, key: string): string
  {
    if key in keywordMap then keywordMap[key] else ReplaceAll(key)
  }

  /** With the reserved-word table, a reserved key comes back wrapped in underscores. */
  lemma KeyMappingReserved(key: string)
    requires key in KeywordPuts
    ensures KeyMapping(KeywordMap, key) == "_" + key + "_"
  {
    PutAllContents(KeywordPuts);
  }

  /** Any other key comes back with its four special characters turned into `_`,
      and nothing else changed. */
  lemma KeyMappingUnreserved(key: string)
    requires key !in KeywordPuts
    ensures |KeyMapping(KeywordMap, key)| == |key|
    ensures forall i | 0 <= i < |key| ::
      KeyMapping(KeywordMap, key)[i] == (if IsReplaced(key[i]) then '_' else key[i])
    ensures forall i | 0 <= i < |key| :: !IsReplaced(KeyMapping(KeywordMap, key)[i])
  {
    PutAllContents(KeywordPuts);
    ReplaceAllSpec(key);
  }

  /** Keys used by the examples below and in the emitter's examples. */
  const ExampleKeys: seq<string> :=
    ["cpp-namespace", "a:b$c*d", "user", "name", "items", "v", "id"]

  /** None of the example keys is reserved (one lemma per group keeps each proof small). */
  lemma ExampleKeysNotReserved()
    ensures forall k | k in ExampleKeys :: k !in KeywordPuts
  {
    ExampleKeysNotInIdlDirectives();
    ExampleKeysNotInIdlKeywords();
    ExampleKeysNotInMagicConstants();
    ExampleKeysNotInLanguageWordsAToE();
    ExampleKeysNotInLanguageWordsEToP();
    ExampleKeysNotInLanguageWordsRToY();
  }

  lemma ExampleKeysNotInIdlDirectives()
    ensures forall k | k in ExampleKeys :: k !in IdlDirectives
  {
    ExampleKeysNotInIdlDirectivesHead();
    ExampleKeysNotInIdlDirectivesTail();
  }

  lemma ExampleKeysNotInIdlDirectivesHead()
    ensures forall k | k in ExampleKeys :: k !in IdlDirectivesHead
  {
  }

  lemma ExampleKeysNotInIdlDirectivesTail()
    ensures forall k | k in ExampleKeys :: k !in IdlDirectivesTail
  {
  }

  lemma ExampleKeysNotInIdlKeywords()
    ensures forall k | k in ExampleKeys :: k !in IdlKeywords
  {
    ExampleKeysNotInIdlKeywordsHead();
    ExampleKeysNotInIdlKeywordsTail();
  }

  lemma ExampleKeysNotInIdlKeywordsHead()
    ensures forall k | k in ExampleKeys :: k !in IdlKeywordsHead
  {
  }

  lemma ExampleKeysNotInIdlKeywordsTail()
    ensures forall k | k in ExampleKeys :: k !in IdlKeywordsTail
  {
  }

  lemma ExampleKeysNotInMagicConstants()
    ensures forall k | k in ExampleKeys :: k !in MagicConstants
  {
  }

  lemma ExampleKeysNotInLanguageWordsAToE()
    ensures forall k | k in ExampleKeys :: k !in LanguageWordsAToE
  {
    ExampleKeysNotInLanguageWordsAToEHead();
    ExampleKeysNotInLanguageWordsAToETail();
  }

  lemma ExampleKeysNotInLanguageWordsAToEHead()
    ensures forall k | k in ExampleKeys :: k !in LanguageWordsAToEHead
  {
  }

  lemma ExampleKeysNotInLanguageWordsAToETail()
    ensures forall k | k in ExampleKeys :: k !in LanguageWordsAToETail
  {
  }

  lemma ExampleKeysNotInLanguageWordsEToP()
    ensures forall k | k in ExampleKeys :: k !in LanguageWordsEToP
  {
    ExampleKeysNotInLanguageWordsEToPHead();
    ExampleKeysNotInLanguageWordsEToPTail();
  }

  lemma ExampleKeysNotInLanguageWordsEToPHead()
    ensures forall k | k in ExampleKeys :: k !in LanguageWordsEToPHead
  {
  }

  lemma ExampleKeysNotInLanguageWordsEToPTail()
    ensures forall k | k in ExampleKeys :: k !in LanguageWordsEToPTail
  {
  }

  lemma ExampleKeysNotInLanguageWordsRToY()
    ensures forall k | k in ExampleKeys :: k !in LanguageWordsRToY
  {
    ExampleKeysNotInLanguageWordsRToYHead();
    ExampleKeysNotInLanguageWordsRToYTail();
  }

  lemma ExampleKeysNotInLanguageWordsRToYHead()
    ensures forall k | k in ExampleKeys :: k !in LanguageWordsRToYHead
  {
  }

  lemma ExampleKeysNotInLanguageWordsRToYTail()
    ensures forall k | k in ExampleKeys :: k !in LanguageWordsRToYTail
  {
  }

  /** An example key is looked up in vain and goes through the replacement chain. */
  lemma ExampleKeyNotReserved(k: string)
    requires k in ExampleKeys
    ensures KeyMapping(KeywordMap, k) == ReplaceAll(k)
  {
    ExampleKeysNotReserved();
    PutAllContents(KeywordPuts);
  }

  /** The lookup is made on the raw key, so a key that becomes a reserved word only
      after replacement is not wrapped, while that reserved word itself is. */
  lemma RawKeyLookup()
    ensures KeyMapping(KeywordMap, "cpp-namespace") == "cpp_namespace"
    ensures KeyMapping(KeywordMap, "cpp_namespace") == "_cpp_namespace_"
  {
    ExampleKeyNotReserved("cpp-namespace");
    ReservedDirective();
  }

  lemma CppNamespaceIsDirective()
    ensures "cpp_namespace" in KeywordPuts
  {
    assert IdlDirectivesHead[3] == "cpp_namespace";
    assert KeywordPuts[3] == IdlDirectivesHead[3];
  }

  /** A reserved namespace directive is wrapped in underscores. */
  lemma ReservedDirective()
    ensures KeyMapping(KeywordMap, "cpp_namespace") == "_cpp_namespace_"
  {
    assert "_" + "cpp_namespace" + "_" == "_cpp_namespace_";
    CppNamespaceIsDirective();
    KeyMappingReserved("cpp_namespace");
  }

  lemma StructIsKeyword()
    ensures "struct" in KeywordPuts
  {
    assert IdlKeywordsTail[2] == "struct";
    assert IdlKeywords[|IdlKeywordsHead| + 2] == IdlKeywordsTail[2];
    assert KeywordPuts[|IdlDirectives| + |IdlKeywordsHead| + 2] == IdlKeywords[|IdlKeywordsHead| + 2];
  }

  lemma LineIsMagicConstant()
    ensures "__LINE__" in KeywordPuts
  {
    assert MagicConstants[4] == "__LINE__";
    assert KeywordPuts[|IdlDirectives| + |IdlKeywords| + 4] == MagicConstants[4];
  }

  /** A reserved IDL keyword is wrapped in underscores. */
  lemma ReservedKeyword()
    ensures KeyMapping(KeywordMap, "struct") == "_struct_"
  {
    assert "_" + "struct" + "_" == "_struct_";
    StructIsKeyword();
    KeyMappingReserved("struct");
  }

  /** A reserved word that already carries underscores gets one more on each side. */
  lemma ReservedMagicConstant()
    ensures KeyMapping(KeywordMap, "__LINE__") == "___LINE___"
  {
    assert "_" + "__LINE__" + "_" == "___LINE___";
    LineIsMagicConstant();
    KeyMappingReserved("__LINE__");
  }

  /** Every replaced character becomes `_`, each one where it stood. */
  lemma ReplacementExample()
    ensures KeyMapping(KeywordMap, "a:b$c*d") == "a_b_c_d"
  {
    ExampleKeyNotReserved("a:b$c*d");
  }
}
