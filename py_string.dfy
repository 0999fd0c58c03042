/** The Python string built-ins the search core relies on: character classes,
    `str.lower`, `str.split`, `" ".join`, `str.strip`, `startswith` and `in`. */
module PyString {

  /** The parts of Python's Unicode character database the core consults:
      `str.isalpha`, `str.lower` (one character may lower to several, as
      U+0130 does) and `str.isspace`. Beyond ASCII they are given; `Valid`
      pins them to what Python does on ASCII. */
  datatype CharDb = CharDb(isAlpha: char -> bool, lower: char -> string, isSpace: char -> bool)

  predicate IsAscii(c: char) { c as int < 128 }
  predicate IsAsciiUpper(c: char) { 'A' <= c <= 'Z' }
  predicate IsAsciiLower(c: char) { 'a' <= c <= 'z' }
  predicate IsAsciiLetter(c: char) { IsAsciiUpper(c) || IsAsciiLower(c) }
  predicate IsAsciiDigit(c: char) { '0' <= c <= '9' }

  /** `str.isspace` on ASCII: tab, line feed, vertical tab, form feed, carriage
      return, the separators 0x1C to 0x1F, and space. */
  predicate IsAsciiSpace(c: char) { c == ' ' || 9 <= c as int <= 13 || 28 <= c as int <= 31 }

  function AsciiLower(c: char): (r: char)
    ensures IsAsciiLower(r) <==> IsAsciiLetter(c)
    ensures !IsAsciiUpper(r)
    ensures IsAscii(c) ==> IsAscii(r)
    ensures !IsAsciiLetter(c) ==> r == c
  {
    if IsAsciiUpper(c) then (c as int + 32) as char else c
  }

  /** The character database agrees with Python on every ASCII character. */
  ghost predicate ValidDb(db: CharDb) {
    && (forall c: char {:trigger db.isAlpha(c)} | IsAscii(c) :: db.isAlpha(c) == IsAsciiLetter(c))
    && (forall c: char {:trigger db.lower(c)} | IsAscii(c) :: db.lower(c) == [AsciiLower(c)])
    && (forall c: char {:trigger db.isSpace(c)} | IsAscii(c) :: db.isSpace(c) == IsAsciiSpace(c))
  }

  predicate AllAscii(s: string) { forall i | 0 <= i < |s| :: IsAscii(s[i]) }

  /** `s.lower()`: every character lowered in turn. */
  function Lower(db: CharDb, s: string): string
  {
    if s == [] then [] else db.lower(s[0]) + Lower(db, s[1..])
  }

  /** `s.lower()` on an ASCII string. */
  function AsciiLowerStr(s: string): (r: string)
    ensures |r| == |s|
  {
    seq(|s|, i requires 0 <= i < |s| => AsciiLower(s[i]))
  }

  lemma {:induction false} LowerOfAscii(db: CharDb, s: string)
    requires ValidDb(db) && AllAscii(s)
    ensures Lower(db, s) == AsciiLowerStr(s)
  {
    if s != [] {
      LowerOfAscii(db, s[1..]);
      assert AsciiLowerStr(s) == [AsciiLower(s[0])] + AsciiLowerStr(s[1..]);
    }
  }

  lemma {:induction false} LowerAppend(db: CharDb, a: string, b: string)
    ensures Lower(db, a + b) == Lower(db, a) + Lower(db, b)
  {
    if a == [] {
      assert a + b == b;
    } else {
      assert (a + b)[0] == a[0] && (a + b)[1..] == a[1..] + b;
      LowerAppend(db, a[1..], b);
    }
  }

  predicate NoSpace(db: CharDb, w: string) { forall i | 0 <= i < |w| :: !db.isSpace(w[i]) }

  /** `not s.strip()`: the string is empty or whitespace only. */
  predicate AllSpace(db: CharDb, s: string) { forall i | 0 <= i < |s| :: db.isSpace(s[i]) }

  /** Length of the run of non-whitespace characters that starts `s`. */
  function WordLength(db: CharDb, s: string): (k: nat)
    requires s != [] && !db.isSpace(s[0])
    ensures 1 <= k <= |s| && NoSpace(db, s[..k])
    ensures k < |s| ==> db.isSpace(s[k])
  {
    if |s| == 1 || db.isSpace(s[1]) then 1
    else
      var k := 1 + WordLength(db, s[1..]);
      assert s[..k] == [s[0]] + s[1..][..k - 1];
      k
  }

  /** `s.split()`: the maximal runs of non-whitespace characters, in order. */
  function Words(db: CharDb, s: string): (r: seq<string>)
    ensures forall i | 0 <= i < |r| :: r[i] != [] && NoSpace(db, r[i])
    decreases |s|
  {
    if s == [] then []
    else if db.isSpace(s[0]) then Words(db, s[1..])
    else
      var k := WordLength(db, s);
      [s[..k]] + Words(db, s[k..])
  }

  lemma {:induction false} WordsOfAllSpace(db: CharDb, s: string)
    requires AllSpace(db, s)
    ensures Words(db, s) == []
    decreases |s|
  {
    if s != [] { WordsOfAllSpace(db, s[1..]); }
  }

  /** `" ".join(ws)`. */
  function JoinSpace(ws: seq<string>): string
  {
    if ws == [] then ""
    else if |ws| == 1 then ws[0]
    else ws[0] + " " + JoinSpace(ws[1..])
  }

  /** Sum of the lengths of the strings in `ws`. */
  function TotalLength(ws: seq<string>): nat
  {
    if ws == [] then 0 else |ws[0]| + TotalLength(ws[1..])
  }

  lemma {:induction false} JoinSpaceLength(ws: seq<string>)
    requires ws != []
    ensures |JoinSpace(ws)| == TotalLength(ws) + |ws| - 1
  {
    if |ws| > 1 { JoinSpaceLength(ws[1..]); }
  }

  lemma {:induction false} TotalLengthAppend(a: seq<string>, b: seq<string>)
    ensures TotalLength(a + b) == TotalLength(a) + TotalLength(b)
  {
    if a == [] {
      assert a + b == b;
    } else {
      assert (a + b)[0] == a[0] && (a + b)[1..] == a[1..] + b;
      TotalLengthAppend(a[1..], b);
    }
  }

  /** Words that are non-empty and hold no whitespace come back out of
      `" ".join` unchanged under `split`. */
  lemma {:induction false} WordsOfJoinSpace(db: CharDb, ws: seq<string>)
    requires ValidDb(db)
    requires forall i | 0 <= i < |ws| :: ws[i] != [] && NoSpace(db, ws[i])
    ensures Words(db, JoinSpace(ws)) == ws
  {
    if ws == [] {
    } else if |ws| == 1 {
      WordsOfWord(db, ws[0], "");
      assert ws[0] + "" == ws[0];
    } else {
      var rest := JoinSpace(ws[1..]);
      var s := ws[0] + " " + rest;
      assert s == ws[0] + (" " + rest);
      WordsOfWord(db, ws[0], " " + rest);
      assert db.isSpace(' ');
      assert (" " + rest)[1..] == rest;
      WordsOfJoinSpace(db, ws[1..]);
    }
  }

  /** A word followed by nothing or by whitespace is split off as one word. */
  lemma {:induction false} WordsOfWord(db: CharDb, w: string, t: string)
    requires w != [] && NoSpace(db, w)
    requires t == [] || db.isSpace(t[0])
    ensures Words(db, w + t) == [w] + Words(db, t)
  {
    var s := w + t;
    assert s[0] == w[0];
    WordLengthOfWord(db, w, t);
    assert s[..|w|] == w && s[|w|..] == t;
  }

  lemma {:induction false} WordLengthOfWord(db: CharDb, w: string, t: string)
    requires w != [] && NoSpace(db, w)
    requires t == [] || db.isSpace(t[0])
    ensures (w + t)[0] == w[0] && WordLength(db, w + t) == |w|
    decreases |w|
  {
    var s := w + t;
    if |w| == 1 {
    } else {
      assert s[1..] == w[1..] + t;
      WordLengthOfWord(db, w[1..], t);
    }
  }

  /** `sub in s` for strings. */
  predicate Contains(s: string, sub: string)
    decreases |s|
  {
    sub <= s || (s != [] && Contains(s[1..], sub))
  }

  /** `any(w in s for w in words)`. */
  predicate ContainsAny(s: string, words: seq<string>)
  {
    exists i | 0 <= i < |words| :: Contains(s, words[i])
  }

  lemma ContainsAnyAppend(r: string, t: string, words: seq<string>)
    requires ContainsAny(r, words)
    ensures ContainsAny(r + t, words)
  {
    var i :| 0 <= i < |words| && Contains(r, words[i]);
    ContainsAppend(r, t, words[i]);
  }

  lemma {:induction false} ContainsAppend(a: string, b: string, sub: string)
    requires Contains(a, sub)
    ensures Contains(a + b, sub)
    decreases |a|
  {
    if sub <= a {
      assert sub <= a + b;
    } else {
      assert (a + b)[1..] == a[1..] + b;
      ContainsAppend(a[1..], b, sub);
    }
  }

  /** `s.strip(c)` for a single character `c`. */
  function StripChar(s: string, c: char): (r: string)
    ensures |r| <= |s|
  {
    TrimEnd(TrimStart(s, c), c)
  }

  function TrimStart(s: string, c: char): (r: string)
    ensures |r| <= |s|
    ensures r != [] ==> r[0] != c
  {
    if s != [] && s[0] == c then TrimStart(s[1..], c) else s
  }

  function TrimEnd(s: string, c: char): (r: string)
    ensures |r| <= |s| && r <= s
    ensures r != [] ==> r[|r| - 1] != c
  {
    if s != [] && s[|s| - 1] == c then TrimEnd(s[..|s| - 1], c) else s
  }
}
