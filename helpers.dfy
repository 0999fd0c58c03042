/** utils/helpers.py: the key normaliser (strict `check_letters`, per-character
    `get_value`, lenient `clean_query`) and the hidden-file rule. */
module Helpers {
  import opened Wrappers
  import opened PyString
  import opened PyPath
  import opened Config

  /** The characters the index accepts: ASCII letters, ASCII digits and VALID_SYMBOLS. */
  predicate IsAllowed(c: char) { IsAsciiLetter(c) || IsAsciiDigit(c) || c in ValidSymbols }

  /** check_letters: every character is allowed (so "" passes). */
  predicate CheckLetters(s: string) { forall i | 0 <= i < |s| :: IsAllowed(s[i]) }

  /** get_value(ch): the key of one character; None where Python raises
      ValueError("Unsupported character"). The argument is a Python string,
      because callers pass `c.lower()`, which may be longer than one
      character. */
  function GetValue(db: CharDb, ch: string): Option<string>
  {
    if ch != [] && AllAlpha(db, ch) then Some(Lower(db, ch))
    else if |ch| == 1 && ch[0] in DigitMap then Some(DigitMap[ch[0]])
    else if |ch| == 1 && ch[0] in SymbolMap then Some(SymbolMap[ch[0]])
    else None
  }

  /** `s.isalpha()` without the emptiness test. */
  predicate AllAlpha(db: CharDb, s: string) { forall i | 0 <= i < |s| :: db.isAlpha(s[i]) }

  /** The key `get_value` gives an allowed character, written out per class. */
  function CharKey(c: char): (k: string)
    requires IsAllowed(c)
  {
    if IsAsciiLetter(c) then [AsciiLower(c)]
    else if IsAsciiDigit(c) then DigitMap[c]
    else SymbolMap[c]
  }

  /** get_value on one character: letters (in Python's sense, so beyond ASCII
      too) give their lower-case form, digits their DIGIT_MAP name and symbols
      their SYMBOL_MAP name; every other character raises. */
  lemma GetValueOfChar(db: CharDb, c: char)
    requires ValidDb(db)
    ensures db.isAlpha(c) ==> GetValue(db, [c]) == Some(db.lower(c))
    ensures !db.isAlpha(c) && c in DigitMap ==> GetValue(db, [c]) == Some(DigitMap[c])
    ensures !db.isAlpha(c) && c in SymbolMap ==> GetValue(db, [c]) == Some(SymbolMap[c])
    ensures GetValue(db, [c]).None? <==> !db.isAlpha(c) && !IsAllowed(c)
  {
    SymbolKey(c);
    DigitKey(c);
    if db.isAlpha(c) {
      GetValueOfAlpha(db, c);
    } else {
      GetValueOfNonAlpha(db, c);
      if IsAscii(c) {
        assert db.isAlpha(c) == IsAsciiLetter(c);
      }
    }
  }

  lemma GetValueOfAlpha(db: CharDb, c: char)
    requires db.isAlpha(c)
    ensures GetValue(db, [c]) == Some(db.lower(c))
  {
    assert [c][1..] == [];
    assert Lower(db, [c]) == db.lower(c);
    assert AllAlpha(db, [c]);
  }

  lemma GetValueOfNonAlpha(db: CharDb, c: char)
    requires !db.isAlpha(c)
    ensures GetValue(db, [c]) ==
      if c in DigitMap then Some(DigitMap[c]) else if c in SymbolMap then Some(SymbolMap[c]) else None
  {
    assert !AllAlpha(db, [c]) by { assert [c][0] == c; }
  }

  /** get_value succeeds on every character check_letters accepts, and then
      gives `CharKey`. */
  lemma GetValueOfAllowed(db: CharDb, c: char)
    requires ValidDb(db) && IsAllowed(c)
    ensures GetValue(db, [c]) == Some(CharKey(c))
    ensures GetValue(db, [AsciiLower(c)]) == Some(CharKey(c))
  {
    SymbolKey(c);
    DigitKey(c);
    var l := AsciiLower(c);
    assert db.isAlpha(c) == IsAsciiLetter(c) && db.lower(c) == [l];
    assert db.isAlpha(l) == IsAsciiLetter(l) && db.lower(l) == [AsciiLower(l)];
    SymbolKey(l);
    DigitKey(l);
    if IsAsciiLetter(c) {
      GetValueOfAlpha(db, c);
      GetValueOfAlpha(db, l);
    } else {
      GetValueOfNonAlpha(db, c);
    }
  }

  /** On accepted characters the keys are distinct except that a letter and its
      capital share one. */
  lemma CharKeyInjective(c1: char, c2: char)
    requires IsAllowed(c1) && IsAllowed(c2)
    ensures CharKey(c1) == CharKey(c2) <==> AsciiLower(c1) == AsciiLower(c2)
  {
    SymbolKey(c1);
    SymbolKey(c2);
    DigitKey(c1);
    DigitKey(c2);
    var k1, k2 := CharKey(c1), CharKey(c2);
    if IsAsciiLetter(c1) != IsAsciiLetter(c2) {
      assert |k1| != |k2|;
    } else if !IsAsciiLetter(c1) {
      if IsAsciiDigit(c1) && IsAsciiDigit(c2) {
        assert k1[3] == c1 && k2[3] == c2;
      } else if IsAsciiDigit(c1) {
        if |k2| == 4 { assert k1[3] == c1 && IsAsciiLower(k2[3]); }
      } else if IsAsciiDigit(c2) {
        if |k1| == 4 { assert k2[3] == c2 && IsAsciiLower(k1[3]); }
      } else if k1 == k2 {
        SymbolMapInjective(c1, c2);
      }
    }
  }

  /** ''.join(get_value(ch) for ch in s): None as soon as one character raises. */
  function KeyOf(db: CharDb, s: string): Option<string>
  {
    if s == [] then Some("")
    else match GetValue(db, [s[0]])
      case None => None
      case Some(k) =>
        match KeyOf(db, s[1..])
        case None => None
        case Some(rest) => Some(k + rest)
  }

  /** The row key of a name or query: get_value over each character of `s.lower()`. */
  function NameKey(db: CharDb, s: string): Option<string>
  {
    KeyOf(db, Lower(db, s))
  }

  /** The keys of an accepted name, character by character. */
  function KeySeq(s: string): (ks: seq<string>)
    requires CheckLetters(s)
    ensures |ks| == |s|
    ensures forall i {:trigger ks[i]} | 0 <= i < |s| :: ks[i] == CharKey(s[i])
  {
    if s == [] then [] else [CharKey(s[0])] + KeySeq(s[1..])
  }

  function Concat(ks: seq<string>): string
  {
    if ks == [] then "" else ks[0] + Concat(ks[1..])
  }

  lemma {:induction false} ConcatAppend(a: seq<string>, b: seq<string>)
    ensures Concat(a + b) == Concat(a) + Concat(b)
  {
    if a == [] {
      assert a + b == b;
    } else {
      assert (a + b)[0] == a[0] && (a + b)[1..] == a[1..] + b;
      ConcatAppend(a[1..], b);
    }
  }

  lemma {:induction false} KeyOfAppend(db: CharDb, a: string, b: string)
    ensures KeyOf(db, a + b) ==
      if KeyOf(db, a).Some? && KeyOf(db, b).Some? then Some(KeyOf(db, a).value + KeyOf(db, b).value) else None
  {
    if a == [] {
      assert a + b == b;
      if KeyOf(db, b).Some? { assert "" + KeyOf(db, b).value == KeyOf(db, b).value; }
    } else {
      assert (a + b)[0] == a[0] && (a + b)[1..] == a[1..] + b;
      KeyOfAppend(db, a[1..], b);
      match GetValue(db, [a[0]])
      case None =>
      case Some(k) =>
        if KeyOf(db, a[1..]).Some? && KeyOf(db, b).Some? {
          var x, y := KeyOf(db, a[1..]).value, KeyOf(db, b).value;
          assert k + (x + y) == (k + x) + y;
        }
    }
  }

  lemma {:induction false} KeyOfAccepted(db: CharDb, s: string)
    requires ValidDb(db) && CheckLetters(s)
    ensures KeyOf(db, s) == Some(Concat(KeySeq(s)))
    ensures KeyOf(db, AsciiLowerStr(s)) == Some(Concat(KeySeq(s)))
  {
    if s != [] {
      GetValueOfAllowed(db, s[0]);
      KeyOfAccepted(db, s[1..]);
      assert AsciiLowerStr(s)[0] == AsciiLower(s[0]) && AsciiLowerStr(s)[1..] == AsciiLowerStr(s[1..]);
    }
  }

  /** Every name check_letters accepts has a row key: the keys of its
      characters, lower-cased, one after another. */
  lemma NameKeyOfAccepted(db: CharDb, s: string)
    requires ValidDb(db) && CheckLetters(s)
    ensures NameKey(db, s) == Some(Concat(KeySeq(s)))
  {
    assert AllAscii(s) by {
      forall i | 0 <= i < |s| ensures IsAscii(s[i]) { assert IsAllowed(s[i]); }
    }
    LowerOfAscii(db, s);
    KeyOfAccepted(db, s);
  }

  /** Joining the per-character keys loses information: the name "." and the
      name "dot" share the row key "dot". */
  lemma NameKeyOfDot(db: CharDb)
    requires ValidDb(db)
    ensures NameKey(db, ".") == NameKey(db, "dot") == Some("dot")
  {
    SymbolKey('.');
    assert CheckLetters(".") && CheckLetters("dot");
    NameKeyOfAccepted(db, ".");
    NameKeyOfAccepted(db, "dot");
    assert KeySeq(".") == ["dot"];
    assert Concat(["dot"]) == "dot" + Concat([]);
    assert Concat(["dot"]) == "dot";
    var ks := ["d", "o", "t"];
    assert KeySeq("dot") == ks;
    assert ks[1..] == ["o", "t"] && ks[1..][1..] == ["t"];
    assert Concat(["t"]) == "t";
    assert Concat(["o", "t"]) == "ot";
    assert Concat(ks) == "dot";
  }

  /** The same collision inside a longer name: "a.txt" and "adottxt". */
  lemma NameKeyOfDottedName(db: CharDb)
    requires ValidDb(db)
    ensures NameKey(db, "a.txt") == NameKey(db, "adottxt") == Some("adottxt")
  {
    KeysOfDottedName();
    KeysOfUndottedName();
    NameKeyOfAccepted(db, "a.txt");
    NameKeyOfAccepted(db, "adottxt");
  }

  lemma KeyOfTxt()
    ensures CheckLetters("txt") && Concat(KeySeq("txt")) == "txt"
  {
    var txt := ["t", "x", "t"];
    assert KeySeq("txt") == txt;
    assert txt[1..] == ["x", "t"] && txt[1..][1..] == ["t"];
    assert Concat(["t"]) == "t";
    assert Concat(["x", "t"]) == "xt";
  }

  lemma KeysOfDottedName()
    ensures CheckLetters("a.txt") && Concat(KeySeq("a.txt")) == "adottxt"
  {
    SymbolKey('.');
    KeyOfTxt();
    var t4 := ['.'] + "txt";
    KeysCons('.', "txt");
    assert CharKey('.') == "dot";
    KeysCons('a', t4);
    assert ['a'] + t4 == "a.txt";
  }

  lemma KeysOfUndottedName()
    ensures CheckLetters("adottxt") && Concat(KeySeq("adottxt")) == "adottxt"
  {
    KeyOfTxt();
    var t4 := ['t'] + "txt";
    KeysCons('t', "txt");
    var t5 := ['o'] + t4;
    KeysCons('o', t4);
    var t6 := ['d'] + t5;
    KeysCons('d', t5);
    KeysCons('a', t6);
    assert ['a'] + t6 == "adottxt";
  }

  lemma KeysCons(c: char, s: string)
    requires IsAllowed(c) && CheckLetters(s)
    ensures CheckLetters([c] + s)
    ensures Concat(KeySeq([c] + s)) == CharKey(c) + Concat(KeySeq(s))
  {
    assert ([c] + s)[0] == c && ([c] + s)[1..] == s;
  }

  /** The characters of `s` that are allowed, in order. */
  function KeepAllowed(s: string): (r: string)
    ensures |r| <= |s| && CheckLetters(r)
  {
    if s == [] then ""
    else if IsAllowed(s[0]) then [s[0]] + KeepAllowed(s[1..])
    else KeepAllowed(s[1..])
  }

  /** clean_query(s): `"".join(ch for ch in (s or "") if ch in ALLOWED).lower()`. */
  function CleanQuery(s: Option<string>): (r: string)
    ensures CheckLetters(r) && IsLowerAscii(r)
    ensures s.None? ==> r == ""
    ensures s.Some? ==> |r| <= |s.value|
  {
    var kept := KeepAllowed(if s.Some? then s.value else "");
    var r := AsciiLowerStr(kept);
    assert forall i | 0 <= i < |r| :: r[i] == AsciiLower(kept[i]) && IsAllowed(kept[i]);
    r
  }

  lemma {:induction false} KeepAllowedAppend(a: string, b: string)
    ensures KeepAllowed(a + b) == KeepAllowed(a) + KeepAllowed(b)
  {
    if a == [] {
      assert a + b == b;
    } else {
      assert (a + b)[0] == a[0] && (a + b)[1..] == a[1..] + b;
      KeepAllowedAppend(a[1..], b);
    }
  }

  lemma {:induction false} KeepAllowedOfAccepted(s: string)
    requires CheckLetters(s)
    ensures KeepAllowed(s) == s
  {
    if s != [] { KeepAllowedOfAccepted(s[1..]); }
  }

  lemma AsciiLowerStrAppend(a: string, b: string)
    ensures AsciiLowerStr(a + b) == AsciiLowerStr(a) + AsciiLowerStr(b)
  {
  }

  /** clean_query works character by character: the result for `a + b` is the
      result for `a` followed by that for `b`, so the kept characters stay in
      input order. */
  lemma CleanQueryAppend(a: string, b: string)
    ensures CleanQuery(Some(a + b)) == CleanQuery(Some(a)) + CleanQuery(Some(b))
  {
    KeepAllowedAppend(a, b);
    AsciiLowerStrAppend(KeepAllowed(a), KeepAllowed(b));
  }

  /** One character survives clean_query, lower-cased, exactly when it is allowed. */
  lemma CleanQueryOfChar(c: char)
    ensures CleanQuery(Some([c])) == if IsAllowed(c) then [AsciiLower(c)] else []
  {
    assert [c][1..] == [];
  }

  /** A string is left unchanged by clean_query exactly when check_letters
      accepts it and it has no capital letter. */
  lemma CleanQueryFixedPoints(s: string)
    ensures CleanQuery(Some(s)) == s <==> CheckLetters(s) && IsLowerAscii(s)
  {
    if CheckLetters(s) && IsLowerAscii(s) {
      KeepAllowedOfAccepted(s);
      assert AsciiLowerStr(s) == s;
    }
  }

  /** clean_query is idempotent. */
  lemma CleanQueryIdempotent(s: Option<string>)
    ensures CleanQuery(Some(CleanQuery(s))) == CleanQuery(s)
  {
    CleanQueryFixedPoints(CleanQuery(s));
  }

  /** A cleaned query never makes get_value raise: it has a row key. */
  lemma CleanQueryHasKey(db: CharDb, s: Option<string>)
    requires ValidDb(db)
    ensures NameKey(db, CleanQuery(s)).Some?
  {
    NameKeyOfAccepted(db, CleanQuery(s));
  }

  /** is_hidden(path): on Windows the hidden or system attribute (`attrHidden`,
      false where the attributes cannot be read); elsewhere a leading dot in
      the base name. */
  predicate IsHidden(platform: Platform, path: string, attrHidden: bool)
  {
    if platform == Windows then attrHidden else [ '.' ] <= Basename(path)
  }
}
