/** The constant tables of config.py that the name index uses. */
module Config {
  import opened PyString

  /** VALID_SYMBOLS: the punctuation a name may contain besides letters and digits. */
  const ValidSymbols: set<char> :=
    {' ', '.', '!', '#', '$', '%', '&', '\'', '(', ')', '-', '@', '^', '_', '`', '{', '}', '~'}

  /** SYMBOL_MAP: the key each permitted symbol is indexed under. */
  const SymbolMap: map<char, string> := map[
    ' ' := "space", '!' := "exclamation", '#' := "hash", '$' := "dollar",
    '%' := "percent", '&' := "ampersand", '\'' := "apostrophe", '.' := "dot",
    '(' := "lparen", ')' := "rparen", '-' := "dash", '@' := "at",
    '^' := "caret", '_' := "underscore", '`' := "backtick",
    '{' := "lbrace", '}' := "rbrace", '~' := "tilde"]

  /** DIGIT_MAP, `{str(i): f"num{i}" for i in range(10)}`: each decimal digit
      keyed as "num" followed by the digit. */
  const DigitMap: map<char, string> := map d: char | IsAsciiDigit(d) :: "num" + [d]

  const SkipFolders: set<string> := {
    "$recycle.bin", "system volume information", "config.msi",
    "windows.old", "$winreagent", "$getcurrent", "$sysreset",
    "$av_asw$", "found.000"}

  const SkipFiles: set<string> := {"pagefile.sys", "hiberfil.sys", "swapfile.sys"}

  const SkipPatterns: seq<string> := ["temp", "tmp", "cache", "__pycache__", "node_modules", "pkg", ".vscode"]

  const ValidImageExtensions: set<string> := {".jpg", ".jpeg", ".png", ".gif", ".bmp", ".tiff", ".webp"}

  /** `any(pattern in s for pattern in SKIP_PATTERNS)`. */
  predicate HasSkipPattern(s: string)
  {
    ContainsAny(s, SkipPatterns)
  }

  /** A string that `str.lower` leaves as it is: ASCII with no capital letter. */
  predicate IsLowerAscii(s: string) { forall i | 0 <= i < |s| :: IsAscii(s[i]) && !IsAsciiUpper(s[i]) }

  /** A key spelt with lower-case ASCII letters only. */
  predicate IsLetterName(s: string) { forall i | 0 <= i < |s| :: IsAsciiLower(s[i]) }

  /** SYMBOL_MAP has exactly VALID_SYMBOLS as keys, all of them ASCII
      punctuation; each key is a lower-case word of at least two letters, so it
      can equal neither a letter's key nor a digit's, and holds neither of the
      SQL wildcards '%' and '_'. */
  lemma SymbolKey(c: char)
    ensures c in SymbolMap <==> c in ValidSymbols
    ensures c in SymbolMap ==> IsAscii(c) && !IsAsciiLetter(c) && !IsAsciiDigit(c)
    ensures c in SymbolMap ==> |SymbolMap[c]| >= 2 && IsLetterName(SymbolMap[c])
  {
  }

  /** No two symbols share a key. */
  lemma SymbolMapInjective(a: char, b: char)
    requires a in SymbolMap && b in SymbolMap && SymbolMap[a] == SymbolMap[b]
    ensures a == b
  {
  }

  /** DIGIT_MAP has exactly the ten ASCII digits as keys. */
  lemma DigitKey(c: char)
    ensures c in DigitMap <==> IsAsciiDigit(c)
    ensures c in DigitMap ==> DigitMap[c] == "num" + [c]
  {
  }

  /** The skip tables are already lower-case, as the lower-cased names they are
      compared with are. */
  lemma SkipTablesAreLowerCase()
    ensures forall s | s in SkipFolders :: IsLowerAscii(s)
    ensures forall s | s in SkipFiles :: IsLowerAscii(s)
    ensures forall i | 0 <= i < |SkipPatterns| :: IsLowerAscii(SkipPatterns[i])
  {
    SkipFoldersAreLowerCase();
  }

  lemma SkipFoldersAreLowerCase()
    ensures forall s | s in SkipFolders :: IsLowerAscii(s)
  {
    SkipFoldersAreLowerCase0();
    SkipFoldersAreLowerCase1();
  }

  lemma SkipFoldersAreLowerCase0()
    ensures IsLowerAscii("$recycle.bin") && IsLowerAscii("system volume information")
    ensures IsLowerAscii("config.msi") && IsLowerAscii("windows.old")
  {
  }

  lemma SkipFoldersAreLowerCase1()
    ensures IsLowerAscii("$winreagent") && IsLowerAscii("$getcurrent") && IsLowerAscii("$sysreset")
    ensures IsLowerAscii("$av_asw$") && IsLowerAscii("found.000")
  {
  }
}
