/** models/data_models.py: the file record, the JSON documents records and
    trie nodes are saved as, and the trie node with its named child slots. */
module DataModels {
  import opened Wrappers
  import opened PyString
  import opened Config

  /** A JSON value as `json.load` gives it (floating-point numbers left out). */
  datatype Json =
    | JNull
    | JBool(b: bool)
    | JNum(n: int)
    | JStr(s: string)
    | JArr(items: seq<Json>)
    | JObj(fields: map<string, Json>)

  /** FileData: a file or folder with its name, full path, kind and the name's length. */
  datatype FileData = FileData(fileName: string, filePath: string, fileType: string, length: int)

  /** `FileData(name, path, type)`. */
  function NewFileData(name: string, path: string, kind: string): (f: FileData)
    ensures f.fileName == name && f.filePath == path && f.fileType == kind
    ensures f.length == |name|
  {
    FileData(name, path, kind, |name|)
  }

  /** `a < b`: records are ordered by the length field and nothing else. */
  predicate LessThan(a: FileData, b: FileData)
  {
    a.length < b.length
  }

  /** `__lt__` is a strict order in which records of equal length are
      interchangeable. */
  lemma LessThanIsStrictOrderByLength(a: FileData, b: FileData, c: FileData)
    ensures !LessThan(a, a)
    ensures LessThan(a, b) && LessThan(b, c) ==> LessThan(a, c)
    ensures LessThan(a, b) ==> !LessThan(b, a)
    ensures a.length == b.length ==> !LessThan(a, b) && (LessThan(a, c) <==> LessThan(b, c))
  {
  }

  /** `fd.to_dict()`. */
  function ToDict(f: FileData): (j: Json)
    ensures j.JObj? && j.fields.Keys == {"file_name", "file_path", "file_type", "length"}
  {
    JObj(map["file_name" := JStr(f.fileName), "file_path" := JStr(f.filePath),
             "file_type" := JStr(f.fileType), "length" := JNum(f.length)])
  }

  /** `FileData.from_dict(d)`: None where Python raises because a key is
      missing, and also on values of other types (a name, path or type that
      is not a string, a length that is not a number), which Python carries
      along but the core never writes. `length` falls back to the name's
      length when it is absent. */
  function FromDict(j: Json): Option<FileData>
  {
    if && j.JObj?
       && "file_name" in j.fields && j.fields["file_name"].JStr?
       && "file_path" in j.fields && j.fields["file_path"].JStr?
       && "file_type" in j.fields && j.fields["file_type"].JStr?
       && ("length" in j.fields ==> j.fields["length"].JNum?)
    then
      var name := j.fields["file_name"].s;
      Some(FileData(name, j.fields["file_path"].s, j.fields["file_type"].s,
                    if "length" in j.fields then j.fields["length"].n else |name|))
    else None
  }

  /** Every record survives `to_dict` followed by `from_dict`. */
  lemma FromDictOfToDict(f: FileData)
    ensures FromDict(ToDict(f)) == Some(f)
  {
  }

  /** A saved record without its length gets the length of its name back. */
  lemma FromDictDefaultsLength(name: string, path: string, kind: string)
    ensures FromDict(JObj(map["file_name" := JStr(name), "file_path" := JStr(path), "file_type" := JStr(kind)]))
            == Some(NewFileData(name, path, kind))
  {
  }

  /** In the model `from_dict` needs all three text fields. */
  lemma FromDictNeedsFields(j: Json)
    requires FromDict(j).Some?
    ensures j.JObj? && "file_name" in j.fields && "file_path" in j.fields && "file_type" in j.fields
    ensures FromDict(j).value.fileName == j.fields["file_name"].s
    ensures FromDict(j).value.filePath == j.fields["file_path"].s
    ensures FromDict(j).value.fileType == j.fields["file_type"].s
  {
  }

  /** `[f.to_dict() for f in fs]`. */
  function FilesToDicts(fs: seq<FileData>): (js: seq<Json>)
    ensures |js| == |fs| && forall i | 0 <= i < |fs| :: js[i] == ToDict(fs[i])
  {
    seq(|fs|, i requires 0 <= i < |fs| => ToDict(fs[i]))
  }

  /** `[FileData.from_dict(f) for f in items]`; None if one of them fails. */
  function FilesFromDicts(items: seq<Json>): (r: Option<seq<FileData>>)
    ensures r.Some? ==> |r.value| == |items|
    ensures r.Some? ==> forall i | 0 <= i < |items| :: FromDict(items[i]) == Some(r.value[i])
  {
    if items == [] then Some([])
    else match (FromDict(items[0]), FilesFromDicts(items[1..]))
      case (Some(f), Some(rest)) => Some([f] + rest)
      case _ => None
  }

  lemma {:induction false} FilesFromDictsOfToDicts(fs: seq<FileData>)
    ensures FilesFromDicts(FilesToDicts(fs)) == Some(fs)
  {
    var js := FilesToDicts(fs);
    if fs != [] {
      assert js[1..] == FilesToDicts(fs[1..]);
      FilesFromDictsOfToDicts(fs[1..]);
      FromDictOfToDict(fs[0]);
      assert js[0] == ToDict(fs[0]);
      assert [fs[0]] + fs[1..] == fs;
    } else {
      assert js == [];
    }
  }

  /** Tree.SYMBOL_MAP: config's symbols plus '+', ',', ';', '=', '[' and ']'. */
  const TreeSymbolMap: map<char, string> := map[
    ' ' := "space", '!' := "exclamation", '#' := "hash", '$' := "dollar",
    '%' := "percent", '&' := "ampersand", '\'' := "apostrophe", '.' := "dot",
    '(' := "lparen", ')' := "rparen", '+' := "plus", ',' := "comma",
    '-' := "dash", ';' := "semicolon", '=' := "equals", '@' := "at",
    '[' := "lbracket", ']' := "rbracket", '^' := "caret", '_' := "underscore",
    '`' := "backtick", '{' := "lbrace", '}' := "rbrace", '~' := "tilde"]

  /** Tree.DIGIT_MAP is config's DIGIT_MAP. */
  const TreeDigitMap: map<char, string> := DigitMap

  /** The names of the child slots of a node: the 26 lower-case letters, then
      the symbol names and the digit names. */
  const LetterSlots: set<string> := set c: char | IsAsciiLower(c) :: [c]
  const TreeSlots: set<string> := LetterSlots + TreeSymbolMap.Values + TreeDigitMap.Values

  /** REVERSE_MAP, the inverse of the symbol and digit maps merged; its
      entries are written out and `ReverseMapInverts` shows they invert both. */
  const ReverseMap: map<string, char> := map[
    "space" := ' ', "exclamation" := '!', "hash" := '#', "dollar" := '$',
    "percent" := '%', "ampersand" := '&', "apostrophe" := '\'', "dot" := '.',
    "lparen" := '(', "rparen" := ')', "plus" := '+', "comma" := ',',
    "dash" := '-', "semicolon" := ';', "equals" := '=', "at" := '@',
    "lbracket" := '[', "rbracket" := ']', "caret" := '^', "underscore" := '_',
    "backtick" := '`', "lbrace" := '{', "rbrace" := '}', "tilde" := '~',
    "num0" := '0', "num1" := '1', "num2" := '2', "num3" := '3',
    "num4" := '4', "num5" := '5', "num6" := '6', "num7" := '7',
    "num8" := '8', "num9" := '9']

  /** Tree.SYMBOL_MAP extends config's SYMBOL_MAP with the same names. */
  lemma TreeSymbolMapExtendsConfig(c: char)
    requires c in SymbolMap
    ensures c in TreeSymbolMap && TreeSymbolMap[c] == SymbolMap[c]
  {
  }

  /** REVERSE_MAP undoes the symbol map. */
  lemma ReverseMapInvertsSymbols(c: char)
    requires c in TreeSymbolMap
    ensures TreeSymbolMap[c] in ReverseMap && ReverseMap[TreeSymbolMap[c]] == c
  {
    match c
    case ' ' => ReverseMapEntries0();
    case '!' => ReverseMapEntries1();
    case '#' => ReverseMapEntries2();
    case '$' => ReverseMapEntries2();
    case '%' => ReverseMapEntries3();
    case '&' => ReverseMapEntries3();
    case '\'' => ReverseMapEntries4();
    case '.' => ReverseMapEntries4();
    case '(' => ReverseMapEntries4();
    case ')' => ReverseMapEntries5();
    case '+' => ReverseMapEntries5();
    case ',' => ReverseMapEntries5();
    case '-' => ReverseMapEntries6();
    case ';' => ReverseMapEntries6();
    case '=' => ReverseMapEntries6();
    case '@' => ReverseMapEntries6();
    case '[' => ReverseMapEntries7();
    case ']' => ReverseMapEntries7();
    case '^' => ReverseMapEntries7();
    case '_' => ReverseMapEntries7();
    case '`' => ReverseMapEntries8();
    case '{' => ReverseMapEntries8();
    case '}' => ReverseMapEntries8();
    case '~' => ReverseMapEntries8();
    case _ => assert false;
  }

  // The entries of SYMBOL_MAP and of the written-out REVERSE_MAP, a few at a
  // time.
  lemma ReverseMapEntries0()
    ensures TreeSymbolMap[' '] == "space" && "space" in ReverseMap && ReverseMap["space"] == ' '
  {
  }

  lemma ReverseMapEntries1()
    ensures TreeSymbolMap['!'] == "exclamation" && "exclamation" in ReverseMap && ReverseMap["exclamation"] == '!'
  {
  }

  lemma ReverseMapEntries2()
    ensures TreeSymbolMap['#'] == "hash" && "hash" in ReverseMap && ReverseMap["hash"] == '#'
    ensures TreeSymbolMap['$'] == "dollar" && "dollar" in ReverseMap && ReverseMap["dollar"] == '$'
  {
  }

  lemma ReverseMapEntries3()
    ensures TreeSymbolMap['%'] == "percent" && "percent" in ReverseMap && ReverseMap["percent"] == '%'
    ensures TreeSymbolMap['&'] == "ampersand" && "ampersand" in ReverseMap && ReverseMap["ampersand"] == '&'
  {
  }

  lemma ReverseMapEntries4()
    ensures TreeSymbolMap['\''] == "apostrophe" && "apostrophe" in ReverseMap && ReverseMap["apostrophe"] == '\''
    ensures TreeSymbolMap['.'] == "dot" && "dot" in ReverseMap && ReverseMap["dot"] == '.'
    ensures TreeSymbolMap['('] == "lparen" && "lparen" in ReverseMap && ReverseMap["lparen"] == '('
  {
  }

  lemma ReverseMapEntries5()
    ensures TreeSymbolMap[')'] == "rparen" && "rparen" in ReverseMap && ReverseMap["rparen"] == ')'
    ensures TreeSymbolMap['+'] == "plus" && "plus" in ReverseMap && ReverseMap["plus"] == '+'
    ensures TreeSymbolMap[','] == "comma" && "comma" in ReverseMap && ReverseMap["comma"] == ','
  {
  }

  lemma ReverseMapEntries6()
    ensures TreeSymbolMap['-'] == "dash" && "dash" in ReverseMap && ReverseMap["dash"] == '-'
    ensures TreeSymbolMap[';'] == "semicolon" && "semicolon" in ReverseMap && ReverseMap["semicolon"] == ';'
    ensures TreeSymbolMap['='] == "equals" && "equals" in ReverseMap && ReverseMap["equals"] == '='
    ensures TreeSymbolMap['@'] == "at" && "at" in ReverseMap && ReverseMap["at"] == '@'
  {
  }

  lemma ReverseMapEntries7()
    ensures TreeSymbolMap['['] == "lbracket" && "lbracket" in ReverseMap && ReverseMap["lbracket"] == '['
    ensures TreeSymbolMap[']'] == "rbracket" && "rbracket" in ReverseMap && ReverseMap["rbracket"] == ']'
    ensures TreeSymbolMap['^'] == "caret" && "caret" in ReverseMap && ReverseMap["caret"] == '^'
    ensures TreeSymbolMap['_'] == "underscore" && "underscore" in ReverseMap && ReverseMap["underscore"] == '_'
  {
  }

  lemma ReverseMapEntries8()
    ensures TreeSymbolMap['`'] == "backtick" && "backtick" in ReverseMap && ReverseMap["backtick"] == '`'
    ensures TreeSymbolMap['{'] == "lbrace" && "lbrace" in ReverseMap && ReverseMap["lbrace"] == '{'
    ensures TreeSymbolMap['}'] == "rbrace" && "rbrace" in ReverseMap && ReverseMap["rbrace"] == '}'
    ensures TreeSymbolMap['~'] == "tilde" && "tilde" in ReverseMap && ReverseMap["tilde"] == '~'
  {
  }

  /** REVERSE_MAP undoes the digit map. */
  lemma ReverseMapInvertsDigits(c: char)
    requires c in TreeDigitMap
    ensures TreeDigitMap[c] in ReverseMap && ReverseMap[TreeDigitMap[c]] == c
  {
    DigitKey(c);
    if c == '0' { assert "num" + [c] == "num0"; }
    else if c == '1' { assert "num" + [c] == "num1"; }
    else if c == '2' { assert "num" + [c] == "num2"; }
    else if c == '3' { assert "num" + [c] == "num3"; }
    else if c == '4' { assert "num" + [c] == "num4"; }
    else if c == '5' { assert "num" + [c] == "num5"; }
    else if c == '6' { assert "num" + [c] == "num6"; }
    else if c == '7' { assert "num" + [c] == "num7"; }
    else if c == '8' { assert "num" + [c] == "num8"; }
    else { assert c == '9' && "num" + [c] == "num9"; }
  }

  /** REVERSE_MAP gives back only symbols and digits. */
  lemma ReverseMapValues(v: string)
    requires v in ReverseMap
    ensures ReverseMap[v] in TreeSymbolMap || ReverseMap[v] in TreeDigitMap
  {
    DigitKey(ReverseMap[v]);
  }

  /** Every key `get_value` gives a character `check_letters` accepts names a
      child slot, so the trie walk never asks for a missing attribute. */
  lemma AcceptedKeysAreSlots(c: char)
    requires IsAsciiLetter(c) || IsAsciiDigit(c) || c in ValidSymbols
    ensures IsAsciiLetter(c) ==> [AsciiLower(c)] in TreeSlots
    ensures IsAsciiDigit(c) ==> c in DigitMap && DigitMap[c] in TreeSlots
    ensures c in ValidSymbols ==> c in SymbolMap && SymbolMap[c] in TreeSlots
  {
    SymbolKey(c);
    DigitKey(c);
    if IsAsciiLetter(c) {
      assert [AsciiLower(c)] in LetterSlots;
    } else if IsAsciiDigit(c) {
      assert DigitMap[c] in TreeDigitMap.Values;
    } else {
      TreeSymbolMapExtendsConfig(c);
      assert SymbolMap[c] in TreeSymbolMap.Values;
    }
  }

  lemma SlotsAreNotFieldNames()
    ensures "value" !in TreeSlots && "files" !in TreeSlots
  {
    FieldNameIsNotASlot("value");
    FieldNameIsNotASlot("files");
  }

  /** A five-letter word that no symbol is named by is not a slot. */
  lemma FieldNameIsNotASlot(w: string)
    requires w == "value" || w == "files"
    ensures w !in TreeSlots
  {
    assert |w| == 5;
    assert forall c | c in TreeDigitMap :: |TreeDigitMap[c]| == 4;
    assert w !in TreeSymbolMap.Values;
  }

  /** A trie node: its key, the records stored at it and its present
      children, by slot name. An absent slot is a child set to None. */
  datatype Tree = Tree(value: string, files: seq<FileData>, children: map<string, Tree>)

  /** `Tree(v)`: no records and every slot None. */
  function NewTree(v: string): (t: Tree)
    ensures t.value == v && t.files == [] && t.children == map[]
  {
    Tree(v, [], map[])
  }

  /** A node whose children sit in slots only, all the way down. */
  ghost predicate WellSlotted(t: Tree)
  {
    && t.children.Keys <= TreeSlots
    && forall k | k in t.children :: WellSlotted(t.children[k])
  }

  /** `t.to_dict()`: value, files, and one entry per slot that holds a child. */
  function TreeToDict(t: Tree): (j: Json)
    ensures j.JObj? && "value" in j.fields && "files" in j.fields
    ensures j.fields["value"] == JStr(t.value) && j.fields["files"] == JArr(FilesToDicts(t.files))
  {
    JObj((map k | k in t.children && k in TreeSlots :: TreeToDict(t.children[k]))
         + map["value" := JStr(t.value), "files" := JArr(FilesToDicts(t.files))])
  }

  /** Besides "value" and "files", the document of a node holds exactly one
      entry per child in a slot: that child's document. */
  lemma TreeToDictChildren(t: Tree)
    ensures forall k | k in TreeToDict(t).fields && k != "value" && k != "files" ::
      k in t.children && k in TreeSlots && TreeToDict(t).fields[k] == TreeToDict(t.children[k])
    ensures forall k | k in t.children && k in TreeSlots :: k in TreeToDict(t).fields
  {
  }

  /** The keys of a node document that `from_dict` turns into children. */
  function ChildKeys(fields: map<string, Json>): set<string>
  {
    set k | k in fields && k != "value" && k != "files" && fields[k].JObj?
  }

  /** `Tree.from_dict(d)`: None where Python raises (a node without "value",
      a record without one of its fields), and also on values of other
      types, which the core never writes: a value that is not a string, a
      "files" entry that is not an array, and an item of it that is not a
      record's dictionary (Python keeps such an item as it is). Every other
      key whose value is a dict becomes a child of that name. */
  function TreeFromDict(j: Json): (r: Option<Tree>)
    ensures r.Some? ==> j.JObj? && "value" in j.fields && j.fields["value"] == JStr(r.value.value)
    ensures r.Some? ==> r.value.children.Keys == ChildKeys(j.fields)
  {
    if !j.JObj? || "value" !in j.fields || !j.fields["value"].JStr? then None
    else
      var fl := if "files" in j.fields then FilesFromDictsOf(j.fields["files"]) else Some([]);
      var kids := ChildKeys(j.fields);
      if fl.None? || exists k | k in kids :: TreeFromDict(j.fields[k]).None? then None
      else Some(Tree(j.fields["value"].s, fl.value, map k | k in kids :: TreeFromDict(j.fields[k]).value))
  }

  /** The records of a "files" entry: an array of record documents. */
  function FilesFromDictsOf(j: Json): Option<seq<FileData>>
  {
    if j.JArr? then FilesFromDicts(j.items) else None
  }

  /** A node whose children sit in slots comes back from `to_dict` followed
      by `from_dict` unchanged: value, records and children, recursively. */
  lemma {:induction false} TreeFromDictOfToDict(t: Tree)
    requires WellSlotted(t)
    ensures TreeFromDict(TreeToDict(t)) == Some(t)
  {
    var j := TreeToDict(t);
    TreeToDictChildren(t);
    forall k | k in t.children
      ensures TreeFromDict(j.fields[k]) == Some(t.children[k])
    {
      SlotsAreNotFieldNames();
      assert k in TreeSlots && k != "value" && k != "files";
      TreeFromDictOfToDict(t.children[k]);
    }
    ChildKeysOfToDict(t);
    FilesFromDictsOfToDicts(t.files);
    TreeFromDictOfParts(j, t.children);
  }

  /** What `from_dict` makes of a node document whose parts all load. */
  lemma TreeFromDictOfParts(j: Json, ch: map<string, Tree>)
    requires j.JObj? && "value" in j.fields && j.fields["value"].JStr?
    requires "files" in j.fields && FilesFromDictsOf(j.fields["files"]).Some?
    requires ChildKeys(j.fields) == ch.Keys
    requires forall k | k in ch :: TreeFromDict(j.fields[k]) == Some(ch[k])
    ensures TreeFromDict(j) == Some(Tree(j.fields["value"].s, FilesFromDictsOf(j.fields["files"]).value, ch))
  {
    var m := map k | k in ChildKeys(j.fields) :: TreeFromDict(j.fields[k]).value;
    assert m == ch;
  }

  lemma ChildKeysOfToDict(t: Tree)
    requires t.children.Keys <= TreeSlots
    ensures ChildKeys(TreeToDict(t).fields) == t.children.Keys
  {
    var j := TreeToDict(t);
    TreeToDictChildren(t);
    SlotsAreNotFieldNames();
    forall k | k in t.children ensures k in ChildKeys(j.fields) {
      assert k in TreeSlots && k != "value" && k != "files";
    }
  }
}
