/** search/file_search.py, the trie half: the registry of root nodes, how
    `build_trees` inserts records, how `save_trees` and `clear_trees` treat
    the registry, and how `search_tree` walks it. */
module FileSearch {
  import opened Wrappers
  import opened PyString
  import opened Config
  import opened Helpers
  import opened DataModels

  /** The names config's SYMBOL_MAP gives its symbols. */
  const SymbolNames: set<string> := {
    "space", "exclamation", "hash", "dollar", "percent", "ampersand",
    "apostrophe", "dot", "lparen", "rparen", "dash", "at", "caret",
    "underscore", "backtick", "lbrace", "rbrace", "tilde"}

  /** The names DIGIT_MAP gives the digits. */
  const DigitNames: set<string> := set d: char | IsAsciiDigit(d) :: "num" + [d]

  /** The registry's keys (lines 16-21): the letters, DIGIT_MAP's names and
      config's SYMBOL_MAP names. */
  const RootKeys: set<string> := LetterSlots + DigitNames + SymbolNames

  /** The key names above are exactly the tables' values. */
  lemma NamesAreTableValues(c: char)
    ensures c in SymbolMap ==> SymbolMap[c] in SymbolNames
    ensures c in DigitMap ==> DigitMap[c] in DigitNames
  {
    DigitKey(c);
  }

  /** A registry with a root for the key of every accepted character. */
  predicate Rooted(trees: map<string, Tree>)
  {
    forall c {:trigger CharKey(c)} | IsAllowed(c) :: CharKey(c) in trees
  }

  /** The registry as the module builds it: one empty root per key. */
  function FreshTrees(): (ts: map<string, Tree>)
    ensures ts.Keys == RootKeys
  {
    map k | k in RootKeys :: NewTree(k)
  }

  /** The key of an accepted character is a registry key. */
  lemma CharKeyIsRoot(c: char)
    requires IsAllowed(c)
    ensures CharKey(c) in RootKeys
  {
    SymbolKey(c);
    DigitKey(c);
    NamesAreTableValues(c);
    if IsAsciiLetter(c) {
      assert [AsciiLower(c)] in LetterSlots;
    }
  }

  /** The key of an accepted character names a child slot. */
  lemma CharKeyIsSlot(c: char)
    requires IsAllowed(c)
    ensures CharKey(c) in TreeSlots
  {
    AcceptedKeysAreSlots(c);
  }

  /** The fresh registry has a root for every accepted character, each of
      them empty. */
  lemma FreshTreesRooted()
    ensures Rooted(FreshTrees())
    ensures forall k | k in FreshTrees() :: FreshTrees()[k] == NewTree(k)
  {
    forall c | IsAllowed(c) ensures CharKey(c) in FreshTrees() {
      CharKeyIsRoot(c);
    }
  }

  /** A name `build_trees` inserts: accepted by check_letters and not empty. */
  predicate Insertable(f: FileData)
  {
    CheckLetters(f.fileName) && f.fileName != []
  }

  /** The walk of lines 113-126: the record is appended to the child reached
      by each key of `ks` in turn, a missing child being created first;
      nothing is appended to `node` itself. */
  function InsertAlong(node: Tree, ks: seq<string>, f: FileData): Tree
    decreases |ks|
  {
    if ks == [] then node
    else
      var child := if ks[0] in node.children then node.children[ks[0]] else NewTree(ks[0]);
      node.(children := node.children[ks[0] := InsertAlong(child.(files := child.files + [f]), ks[1..], f)])
  }

  /** One iteration of the loop at lines 101-129: a one-character name goes
      to its root's own records; a longer name is inserted along the keys of
      its other characters; a name check_letters refuses changes nothing. */
  function InsertRecord(trees: map<string, Tree>, f: FileData): (r: map<string, Tree>)
    requires Rooted(trees)
    ensures r.Keys == trees.Keys
  {
    if !Insertable(f) then trees
    else
      var ks := KeySeq(f.fileName);
      var root := trees[ks[0]];
      if |f.fileName| == 1 then trees[ks[0] := root.(files := root.files + [f])]
      else trees[ks[0] := InsertAlong(root, ks[1..], f)]
  }

  /** The records of `fs` inserted one after another. */
  function InsertAll(trees: map<string, Tree>, fs: seq<FileData>): (r: map<string, Tree>)
    requires Rooted(trees)
    ensures r.Keys == trees.Keys
  {
    if fs == [] then trees
    else InsertRecord(InsertAll(trees, fs[..|fs| - 1]), fs[|fs| - 1])
  }

  /** The position of the first empty name, where line 106 raises IndexError
      (the empty name passes check_letters); |fs| if there is none. */
  function FirstEmpty(fs: seq<FileData>): (e: nat)
    ensures e <= |fs|
    ensures forall i | 0 <= i < e :: fs[i].fileName != []
    ensures e < |fs| ==> fs[e].fileName == []
  {
    if fs == [] then 0
    else if fs[0].fileName == [] then 0
    else 1 + FirstEmpty(fs[1..])
  }

  /** Reaching an empty name before the first one means reaching the first one. */
  lemma FirstEmptyAt(fs: seq<FileData>, i: nat)
    requires i <= FirstEmpty(fs) && i < |fs| && fs[i].fileName == []
    ensures i == FirstEmpty(fs)
  {
  }

  lemma FirstEmptyPast(fs: seq<FileData>, i: nat)
    requires i <= FirstEmpty(fs) && i < |fs| && fs[i].fileName != []
    ensures i < FirstEmpty(fs)
  {
  }

  lemma InsertAllStep(trees: map<string, Tree>, fs: seq<FileData>, i: nat)
    requires Rooted(trees) && i < |fs|
    ensures InsertAll(trees, fs[..i + 1]) == InsertRecord(InsertAll(trees, fs[..i]), fs[i])
  {
    assert fs[..i + 1][..i] == fs[..i];
  }

  /** The indices `progress_callback(idx, total)` is called with for the
      first `n` records (lines 128-129). */
  function Reports(fs: seq<FileData>, n: nat): seq<nat>
    requires n <= |fs|
  {
    if n == 0 then []
    else Reports(fs, n - 1) + (if Insertable(fs[n - 1]) && |fs[n - 1].fileName| >= 2 && (n - 1) % 100 == 0 then [n - 1] else [])
  }

  lemma ReportsStep(fs: seq<FileData>, i: nat)
    requires i < |fs|
    ensures Reports(fs, i + 1) == Reports(fs, i) + if Insertable(fs[i]) && |fs[i].fileName| >= 2 && i % 100 == 0 then [i] else []
  {
  }

  /** Progress is reported, in increasing order, exactly for every hundredth
      index whose record was inserted along a path. */
  lemma {:induction false} ReportsExact(fs: seq<FileData>, n: nat)
    requires n <= |fs|
    ensures forall i | 0 <= i < |Reports(fs, n)| :: Reports(fs, n)[i] < n
    ensures forall i, j | 0 <= i < j < |Reports(fs, n)| :: Reports(fs, n)[i] < Reports(fs, n)[j]
    ensures forall x: nat :: x in Reports(fs, n) <==> x < n && Insertable(fs[x]) && |fs[x].fileName| >= 2 && x % 100 == 0
  {
    if n > 0 {
      ReportsExact(fs, n - 1);
    }
  }

  /** The records stored at the node `path` leads to from `t`; none where
      the path leaves the trie. */
  function NodeFiles(t: Tree, path: seq<string>): seq<FileData>
    decreases |path|
  {
    if path == [] then t.files
    else if path[0] in t.children then NodeFiles(t.children[path[0]], path[1..])
    else []
  }

  /** The records at the node of the registry that the key path leads to. */
  function RegFiles(trees: map<string, Tree>, path: seq<string>): seq<FileData>
  {
    if path != [] && path[0] in trees then NodeFiles(trees[path[0]], path[1..]) else []
  }

  /** Whether inserting `f` adds it to the node at `path`: a one-character
      name lands on its root only; a longer name lands on each node at depth
      1 to |name|-1 of its own key path. */
  predicate Hits(f: FileData, path: seq<string>)
  {
    && Insertable(f)
    && var ks := KeySeq(f.fileName);
       if |f.fileName| == 1 then path == ks
       else 2 <= |path| <= |ks| && path == ks[..|path|]
  }

  /** The records of `fs`, in order, that insertion adds to the node at `path`. */
  function HitsOf(fs: seq<FileData>, path: seq<string>): (r: seq<FileData>)
    ensures |r| <= |fs|
  {
    if fs == [] then []
    else HitsOf(fs[..|fs| - 1], path) + (if Hits(fs[|fs| - 1], path) then [fs[|fs| - 1]] else [])
  }

  lemma NodeFilesOfNewTree(k: string, path: seq<string>)
    ensures NodeFiles(NewTree(k), path) == []
  {
  }

  lemma NodeFilesOfAppend(t: Tree, f: FileData, path: seq<string>)
    ensures NodeFiles(t.(files := t.files + [f]), path) == NodeFiles(t, path) + (if path == [] then [f] else [])
  {
  }

  /** The walk adds the record once to each node along `ks` below `node`,
      and to no other node. */
  lemma {:induction false} NodeFilesOfInsertAlong(node: Tree, ks: seq<string>, f: FileData, path: seq<string>)
    ensures NodeFiles(InsertAlong(node, ks, f), path) ==
      NodeFiles(node, path) + (if 1 <= |path| <= |ks| && path == ks[..|path|] then [f] else [])
    decreases |ks|
  {
    if ks != [] && path != [] {
      var child := if ks[0] in node.children then node.children[ks[0]] else NewTree(ks[0]);
      var child' := child.(files := child.files + [f]);
      if path[0] == ks[0] {
        NodeFilesOfInsertAlong(child', ks[1..], f, path[1..]);
        NodeFilesOfAppend(child, f, path[1..]);
        if ks[0] !in node.children { NodeFilesOfNewTree(ks[0], path[1..]); }
        assert (1 <= |path| <= |ks| && path == ks[..|path|]) <==>
               (path[1..] == [] || (1 <= |path[1..]| <= |ks[1..]| && path[1..] == ks[1..][..|path[1..]|]));
      }
    }
  }

  /** Inserting one record adds it to the end of exactly the nodes it hits. */
  lemma RegFilesOfInsertRecord(trees: map<string, Tree>, f: FileData, path: seq<string>)
    requires Rooted(trees)
    ensures RegFiles(InsertRecord(trees, f), path) == RegFiles(trees, path) + (if Hits(f, path) then [f] else [])
  {
    if Insertable(f) {
      if |f.fileName| == 1 {
        RegFilesOfInsertOneChar(trees, f, path);
      } else {
        RegFilesOfInsertLongName(trees, f, path);
      }
    }
  }

  lemma RegFilesOfInsertOneChar(trees: map<string, Tree>, f: FileData, path: seq<string>)
    requires Rooted(trees) && Insertable(f) && |f.fileName| == 1
    ensures RegFiles(InsertRecord(trees, f), path) == RegFiles(trees, path) + (if Hits(f, path) then [f] else [])
  {
    var ks := KeySeq(f.fileName);
    HitsOfOneChar(f, path);
    if path != [] && path[0] == ks[0] {
      NodeFilesOfAppend(trees[ks[0]], f, path[1..]);
      assert path == ks <==> path[1..] == [];
    }
  }

  lemma RegFilesOfInsertLongName(trees: map<string, Tree>, f: FileData, path: seq<string>)
    requires Rooted(trees) && Insertable(f) && |f.fileName| >= 2
    ensures RegFiles(InsertRecord(trees, f), path) == RegFiles(trees, path) + (if Hits(f, path) then [f] else [])
  {
    var ks := KeySeq(f.fileName);
    HitsOfLongName(f, path);
    if path != [] && path[0] == ks[0] {
      NodeFilesOfInsertAlong(trees[ks[0]], ks[1..], f, path[1..]);
      assert (2 <= |path| <= |ks| && path == ks[..|path|]) <==>
             (1 <= |path[1..]| <= |ks[1..]| && path[1..] == ks[1..][..|path[1..]|]);
    }
  }

  /** After inserting a list of records, each node holds what it held before
      followed by the records that hit it, in input order. */
  lemma {:induction false} RegFilesOfInsertAll(trees: map<string, Tree>, fs: seq<FileData>, path: seq<string>)
    requires Rooted(trees)
    ensures RegFiles(InsertAll(trees, fs), path) == RegFiles(trees, path) + HitsOf(fs, path)
  {
    if fs != [] {
      RegFilesOfInsertAll(trees, fs[..|fs| - 1], path);
      RegFilesOfInsertRecord(InsertAll(trees, fs[..|fs| - 1]), fs[|fs| - 1], path);
    }
  }

  /** `n.lower().startswith(p.lower())` on ASCII strings. */
  predicate LowerPrefix(p: string, n: string)
  {
    |p| <= |n| && forall i | 0 <= i < |p| :: AsciiLower(p[i]) == AsciiLower(n[i])
  }

  /** On accepted strings, the key path of `p` starts the key path of `n`
      exactly when `p` starts `n` up to ASCII case. */
  lemma KeySeqPrefixIff(p: string, n: string)
    requires CheckLetters(p) && CheckLetters(n) && |p| <= |n|
    ensures KeySeq(p) == KeySeq(n)[..|p|] <==> LowerPrefix(p, n)
  {
    var kp, kn := KeySeq(p), KeySeq(n);
    forall i | 0 <= i < |p|
      ensures kp[i] == kn[i] <==> AsciiLower(p[i]) == AsciiLower(n[i])
    {
      CharKeyInjective(p[i], n[i]);
    }
    if LowerPrefix(p, n) {
      assert kp == kn[..|p|];
    }
    if kp == kn[..|p|] {
      assert forall i | 0 <= i < |p| :: kp[i] == kn[i];
    }
  }

  /** What the node of an accepted prefix receives, in terms of names: a
      one-character prefix's root gets the one-character names equal to it up
      to case; the node of a longer prefix gets every name at least as long
      that starts with it up to case. */
  lemma HitsByName(f: FileData, p: string)
    requires CheckLetters(p) && p != []
    ensures Hits(f, KeySeq(p)) <==> NameHit(f, p)
  {
    if !Insertable(f) {
      assert !Hits(f, KeySeq(p));
    } else if |p| > |f.fileName| {
      HitsNeedsLength(f, KeySeq(p));
    } else if |f.fileName| == 1 {
      HitsByOneCharName(f, p);
    } else {
      HitsByLongName(f, p);
    }
  }

  /** The record's name is accepted and starts with the prefix up to ASCII
      case; a prefix of one character matches only a name of one. */
  predicate NameHit(f: FileData, p: string)
  {
    && Insertable(f)
    && LowerPrefix(p, f.fileName)
    && (|f.fileName| == 1 || 2 <= |p|)
  }

  lemma HitsByOneCharName(f: FileData, p: string)
    requires CheckLetters(p) && p != [] && Insertable(f) && |f.fileName| == 1 && |p| <= 1
    ensures Hits(f, KeySeq(p)) <==> NameHit(f, p)
  {
    HitsOfOneChar(f, KeySeq(p));
    KeySeqPrefixIff(p, f.fileName);
    assert KeySeq(f.fileName)[..|p|] == KeySeq(f.fileName);
  }

  lemma HitsByLongName(f: FileData, p: string)
    requires CheckLetters(p) && Insertable(f) && |f.fileName| >= 2 && |p| <= |f.fileName|
    ensures Hits(f, KeySeq(p)) <==> NameHit(f, p)
  {
    HitsOfLongName(f, KeySeq(p));
    KeySeqPrefixIff(p, f.fileName);
  }

  lemma HitsNeedsLength(f: FileData, path: seq<string>)
    ensures Hits(f, path) ==> |path| <= |f.fileName|
  {
  }

  lemma HitsOfLongName(f: FileData, path: seq<string>)
    requires Insertable(f) && |f.fileName| >= 2
    ensures Hits(f, path) <==> 2 <= |path| <= |f.fileName| && path == KeySeq(f.fileName)[..|path|]
  {
  }

  lemma HitsOfOneChar(f: FileData, path: seq<string>)
    requires Insertable(f) && |f.fileName| == 1
    ensures Hits(f, path) <==> path == KeySeq(f.fileName)
  {
  }

  /** The registry built from scratch holds at each key path exactly the
      records that hit it, in input order. */
  lemma BuiltRegistry(fs: seq<FileData>, path: seq<string>)
    ensures RegFiles(InsertAll(FreshTrees(), fs), path) == HitsOf(fs, path)
  {
    FreshTreesRooted();
    RegFilesOfInsertAll(FreshTrees(), fs, path);
    RegFilesOfFresh(path);
    assert [] + HitsOf(fs, path) == HitsOf(fs, path);
  }

  lemma RegFilesOfFresh(path: seq<string>)
    ensures RegFiles(FreshTrees(), path) == []
  {
    if path != [] && path[0] in FreshTrees() {
      FreshTreesRooted();
      NodeFilesOfNewTree(path[0], path[1..]);
    }
  }

  /** Every root the insertion builds keeps its children in slots. */
  lemma {:induction false} InsertAlongWellSlotted(node: Tree, ks: seq<string>, f: FileData)
    requires WellSlotted(node)
    requires forall i | 0 <= i < |ks| :: ks[i] in TreeSlots
    ensures WellSlotted(InsertAlong(node, ks, f))
    decreases |ks|
  {
    if ks != [] {
      var child := if ks[0] in node.children then node.children[ks[0]] else NewTree(ks[0]);
      InsertAlongWellSlotted(child.(files := child.files + [f]), ks[1..], f);
    }
  }

  /** A registry whose roots keep their children in slots. */
  ghost predicate AllWellSlotted(trees: map<string, Tree>)
  {
    forall k | k in trees :: WellSlotted(trees[k])
  }

  lemma InsertRecordWellSlotted(trees: map<string, Tree>, f: FileData)
    requires Rooted(trees) && AllWellSlotted(trees)
    ensures AllWellSlotted(InsertRecord(trees, f))
  {
    if Insertable(f) {
      var ks := KeySeq(f.fileName);
      var root := trees[ks[0]];
      var root' := if |f.fileName| == 1 then root.(files := root.files + [f]) else InsertAlong(root, ks[1..], f);
      if |f.fileName| > 1 {
        forall i | 0 <= i < |ks[1..]| ensures ks[1..][i] in TreeSlots {
          CharKeyIsSlot(f.fileName[i + 1]);
        }
        InsertAlongWellSlotted(root, ks[1..], f);
      }
      assert InsertRecord(trees, f) == trees[ks[0] := root'];
      UpdateWellSlotted(trees, ks[0], root');
    }
  }

  lemma UpdateWellSlotted(trees: map<string, Tree>, k: string, t: Tree)
    requires AllWellSlotted(trees) && WellSlotted(t)
    ensures AllWellSlotted(trees[k := t])
  {
  }

  lemma {:induction false} InsertAllWellSlotted(trees: map<string, Tree>, fs: seq<FileData>)
    requires Rooted(trees) && AllWellSlotted(trees)
    ensures AllWellSlotted(InsertAll(trees, fs))
  {
    if fs != [] {
      InsertAllWellSlotted(trees, fs[..|fs| - 1]);
      InsertRecordWellSlotted(InsertAll(trees, fs[..|fs| - 1]), fs[|fs| - 1]);
    }
  }

  lemma FreshTreesWellSlotted()
    ensures AllWellSlotted(FreshTrees())
  {
  }

  /** Lines 152-158: the walk from a root over the remaining characters of
      the prefix. None where get_value raises; a missing child ends the walk
      with no records, before any later character is looked at. */
  function Walk(db: CharDb, node: Tree, rest: string): Option<seq<FileData>>
    decreases |rest|
  {
    if rest == [] then Some(node.files)
    else match GetValue(db, db.lower(rest[0]))
      case None => None
      case Some(k) => if k in node.children then Walk(db, node.children[k], rest[1..]) else Some([])
  }

  /** `get_value(c.lower())` for an accepted character is its key. */
  lemma GetValueOfLowered(db: CharDb, c: char)
    requires ValidDb(db) && IsAllowed(c)
    ensures GetValue(db, db.lower(c)) == Some(CharKey(c))
  {
    GetValueOfAllowed(db, c);
  }

  /** On an accepted prefix the walk never raises and ends at the node its
      key path leads to. */
  lemma {:induction false} WalkOfAccepted(db: CharDb, node: Tree, rest: string)
    requires ValidDb(db) && CheckLetters(rest)
    ensures Walk(db, node, rest) == Some(NodeFiles(node, KeySeq(rest)))
    decreases |rest|
  {
    if rest != [] {
      GetValueOfLowered(db, rest[0]);
      assert KeySeq(rest)[1..] == KeySeq(rest[1..]);
      if CharKey(rest[0]) in node.children {
        WalkOfAccepted(db, node.children[CharKey(rest[0])], rest[1..]);
      }
    }
  }

  /** `load_tree(name)`: the saved document of that root, if there is one and
      `from_dict` accepts it. */
  function LoadTree(disk: map<string, Json>, k: string): Option<Tree>
  {
    if k in disk then TreeFromDict(disk[k]) else None
  }

  /** What `search_tree` returns, and the registry and load marks it leaves. */
  datatype Outcome = Outcome(result: Option<seq<FileData>>, trees: map<string, Tree>, loaded: set<string>)

  /** Lines 141-147: a root with no records of its own that is not marked
      is replaced by its saved document, when one loads, and marked. */
  function LazyLoad(trees: map<string, Tree>, loaded: set<string>, disk: map<string, Json>, k: string): (r: (map<string, Tree>, set<string>))
    requires k in trees
    ensures r.0.Keys == trees.Keys
    ensures forall j | j in trees && j != k :: r.0[j] == trees[j]
    ensures r.1 == loaded || r.1 == loaded + {k}
  {
    if trees[k].files == [] && k !in loaded && LoadTree(disk, k).Some? then
      (trees[k := LoadTree(disk, k).value], loaded + {k})
    else (trees, loaded)
  }

  /** search_tree(prefix), lines 132-158. An empty prefix finds nothing; the
      first character's key may raise; an unknown key finds nothing;
      otherwise the root is loaded lazily and walked. */
  function Search(db: CharDb, trees: map<string, Tree>, loaded: set<string>, disk: map<string, Json>, prefix: string): Outcome
  {
    if prefix == [] then Outcome(Some([]), trees, loaded)
    else match GetValue(db, db.lower(prefix[0]))
      case None => Outcome(None, trees, loaded)
      case Some(k) =>
        if k !in trees then Outcome(Some([]), trees, loaded)
        else
          var (ts, ld) := LazyLoad(trees, loaded, disk, k);
          Outcome(Walk(db, ts[k], prefix[1..]), ts, ld)
  }

  /** For an accepted prefix the search loads the prefix's root and walks it. */
  lemma SearchIsWalk(db: CharDb, trees: map<string, Tree>, loaded: set<string>, disk: map<string, Json>, p: string)
    requires ValidDb(db) && CheckLetters(p) && p != [] && Rooted(trees)
    ensures var k := CharKey(p[0]);
      var l := LazyLoad(trees, loaded, disk, k);
      Search(db, trees, loaded, disk, p) == Outcome(Walk(db, l.0[k], p[1..]), l.0, l.1)
  {
    GetValueOfLowered(db, p[0]);
  }

  /** For an accepted prefix, search_tree returns the records at the node its
      key path reaches, in the registry as the lazy load leaves it, and
      touches no root other than the prefix's own. */
  lemma SearchOfAccepted(db: CharDb, trees: map<string, Tree>, loaded: set<string>, disk: map<string, Json>, p: string)
    requires ValidDb(db) && CheckLetters(p) && p != [] && Rooted(trees)
    ensures var o := Search(db, trees, loaded, disk, p);
      && o.result == Some(RegFiles(o.trees, KeySeq(p)))
      && o.trees.Keys == trees.Keys
      && forall k | k in trees && k != KeySeq(p)[0] :: o.trees[k] == trees[k]
  {
    var k := CharKey(p[0]);
    SearchIsWalk(db, trees, loaded, disk, p);
    var l := LazyLoad(trees, loaded, disk, k);
    WalkOfAccepted(db, l.0[k], p[1..]);
    assert KeySeq(p)[1..] == KeySeq(p[1..]);
  }

  /** With no saved documents the lazy load changes nothing. */
  lemma SearchWithoutDocumentsKeepsTrees(db: CharDb, trees: map<string, Tree>, loaded: set<string>, p: string)
    ensures Search(db, trees, loaded, map[], p).trees == trees
  {
  }

  /** The records of `fs`, in order, whose names the prefix matches. */
  function Matching(fs: seq<FileData>, p: string): (r: seq<FileData>)
    ensures |r| <= |fs|
  {
    if fs == [] then []
    else Matching(fs[..|fs| - 1], p) + (if NameHit(fs[|fs| - 1], p) then [fs[|fs| - 1]] else [])
  }

  /** A record is matched exactly when it is in `fs` and its name starts
      with the prefix as NameHit says. */
  lemma {:induction false} MatchingMembers(fs: seq<FileData>, p: string)
    ensures forall f :: f in Matching(fs, p) <==> f in fs && NameHit(f, p)
  {
    if fs != [] {
      MatchingMembers(fs[..|fs| - 1], p);
      assert fs == fs[..|fs| - 1] + [fs[|fs| - 1]];
    }
  }

  /** The records that reach a prefix's node are the ones matching it. */
  lemma {:induction false} HitsOfIsMatching(fs: seq<FileData>, p: string)
    requires CheckLetters(p) && p != []
    ensures HitsOf(fs, KeySeq(p)) == Matching(fs, p)
  {
    if fs != [] {
      HitsOfIsMatching(fs[..|fs| - 1], p);
      HitsByName(fs[|fs| - 1], p);
    }
  }

  /** search_tree on a registry built from scratch, with no saved documents:
      a one-character prefix finds the one-character names equal to it up to
      case, a longer prefix finds every name at least as long that starts
      with it up to case, in input order. */
  lemma SearchOfBuilt(db: CharDb, fs: seq<FileData>, loaded: set<string>, p: string)
    requires ValidDb(db) && CheckLetters(p) && p != []
    ensures Search(db, InsertAll(FreshTrees(), fs), loaded, map[], p).result == Some(Matching(fs, p))
  {
    var trees := InsertAll(FreshTrees(), fs);
    FreshTreesRooted();
    RootedOfSameKeys(FreshTrees(), trees);
    SearchOfAccepted(db, trees, loaded, map[], p);
    SearchWithoutDocumentsKeepsTrees(db, trees, loaded, p);
    BuiltRegistry(fs, KeySeq(p));
    HitsOfIsMatching(fs, p);
  }

  /** The documents save_trees (lines 84-93) writes over `disk`: those of the
      roots that hold records of their own. */
  function Saved(trees: map<string, Tree>, disk: map<string, Json>): (d: map<string, Json>)
    ensures d.Keys == disk.Keys + set k | k in trees && trees[k].files != []
  {
    disk + map k | k in trees && trees[k].files != [] :: TreeToDict(trees[k])
  }

  /** The corrected save: the documents of every root. */
  function SavedAll(trees: map<string, Tree>, disk: map<string, Json>): (d: map<string, Json>)
    ensures d.Keys == disk.Keys + trees.Keys
  {
    disk + map k | k in trees :: TreeToDict(trees[k])
  }

  /** clear_trees (lines 76-81): every key keeps its place with a fresh root. */
  function Cleared(trees: map<string, Tree>): (r: map<string, Tree>)
    ensures r.Keys == trees.Keys
    ensures forall k | k in r :: r[k].files == [] && r[k].children == map[]
  {
    map k | k in trees :: NewTree(k)
  }

  /** With the corrected save, clearing the registry loses nothing: every
      accepted prefix then finds, through the lazy load, exactly what it
      found in the registry before the clear. */
  lemma SearchAfterSaveAllAndClear(db: CharDb, trees: map<string, Tree>, disk: map<string, Json>, p: string)
    requires ValidDb(db) && CheckLetters(p) && p != []
    requires Rooted(trees) && AllWellSlotted(trees)
    ensures Search(db, Cleared(trees), {}, SavedAll(trees, disk), p).result == Some(RegFiles(trees, KeySeq(p)))
  {
    var k := CharKey(p[0]);
    var cleared, saved := Cleared(trees), SavedAll(trees, disk);
    ClearedRooted(trees);
    LoadAfterSaveAll(trees, disk, k);
    SearchLoadsClearedRoot(db, cleared, saved, p);
    SearchOfAccepted(db, cleared, {}, saved, p);
    RegFilesOfSameRoot(Search(db, cleared, {}, saved, p).trees, trees, KeySeq(p));
  }

  lemma ClearedRooted(trees: map<string, Tree>)
    requires Rooted(trees)
    ensures Rooted(Cleared(trees))
  {
    forall c | IsAllowed(c) ensures CharKey(c) in Cleared(trees) {
      assert CharKey(c) in trees;
    }
  }

  lemma RootedOfSameKeys(t1: map<string, Tree>, t2: map<string, Tree>)
    requires Rooted(t1) && t1.Keys == t2.Keys
    ensures Rooted(t2)
  {
    forall c | IsAllowed(c) ensures CharKey(c) in t2 {
      assert CharKey(c) in t1;
    }
  }

  /** The saved document of a root loads back as that root. */
  lemma LoadAfterSaveAll(trees: map<string, Tree>, disk: map<string, Json>, k: string)
    requires k in trees && WellSlotted(trees[k])
    ensures LoadTree(SavedAll(trees, disk), k) == Some(trees[k])
  {
    TreeFromDictOfToDict(trees[k]);
  }

  /** On a root with no records that is not marked, search_tree installs
      the saved root, if it loads. */
  lemma SearchLoadsClearedRoot(db: CharDb, trees: map<string, Tree>, disk: map<string, Json>, p: string)
    requires ValidDb(db) && CheckLetters(p) && p != [] && Rooted(trees)
    requires trees[CharKey(p[0])].files == [] && LoadTree(disk, CharKey(p[0])).Some?
    ensures Search(db, trees, {}, disk, p).trees[CharKey(p[0])] == LoadTree(disk, CharKey(p[0])).value
  {
    GetValueOfLowered(db, p[0]);
  }

  lemma RegFilesOfSameRoot(t1: map<string, Tree>, t2: map<string, Tree>, path: seq<string>)
    requires path != [] && path[0] in t1 && path[0] in t2 && t1[path[0]] == t2[path[0]]
    ensures RegFiles(t1, path) == RegFiles(t2, path)
  {
  }

  /** As written, save_trees skips every root without records of its own,
      and a name longer than one character stores nothing at its root: after
      indexing the single file "ab" and clearing the registry, searching "ab"
      finds nothing, although it found the file before the clear. */
  lemma SearchAfterSaveAndClearLosesRecords(db: CharDb)
    requires ValidDb(db)
    ensures var f := NewFileData("ab", "/ab", "unknown");
      var built := InsertAll(FreshTrees(), [f]);
      && Search(db, built, {}, map[], "ab").result == Some([f])
      && Search(db, Cleared(built), {}, Saved(built, map[]), "ab").result == Some([])
  {
    var f := NewFileData("ab", "/ab", "unknown");
    assert CheckLetters(f.fileName) by { assert IsAllowed(f.fileName[0]) && IsAllowed(f.fileName[1]); }
    SearchOfOneRecordFinds(db, f);
    SearchOfOneRecordAfterSaveAndClear(db, f);
  }

  /** A registry built from one record finds it under its whole name. */
  lemma SearchOfOneRecordFinds(db: CharDb, f: FileData)
    requires ValidDb(db) && Insertable(f) && |f.fileName| >= 2
    ensures Search(db, InsertAll(FreshTrees(), [f]), {}, map[], f.fileName).result == Some([f])
  {
    var p := f.fileName;
    assert NameHit(f, p);
    assert Matching([f], p) == [f] by { assert [f][..0] == []; }
    SearchOfBuilt(db, [f], {}, p);
  }

  /** After save_trees as written and clear_trees, a registry built from one
      record of two or more characters no longer finds it. */
  lemma SearchOfOneRecordAfterSaveAndClear(db: CharDb, f: FileData)
    requires ValidDb(db) && Insertable(f) && |f.fileName| >= 2
    ensures var built := InsertAll(FreshTrees(), [f]);
      Search(db, Cleared(built), {}, Saved(built, map[]), f.fileName).result == Some([])
  {
    RootOfLongNameIsNotSaved(f);
    FreshTreesRooted();
    RootedOfSameKeys(FreshTrees(), InsertAll(FreshTrees(), [f]));
    SearchAfterSaveAndClearOfBareRoot(db, InsertAll(FreshTrees(), [f]), map[], f.fileName);
  }

  /** A root without records of its own and without an earlier document is
      not saved, so after clear_trees a search of two or more characters
      through it finds nothing. */
  lemma SearchAfterSaveAndClearOfBareRoot(db: CharDb, trees: map<string, Tree>, disk: map<string, Json>, p: string)
    requires ValidDb(db) && CheckLetters(p) && |p| >= 2 && Rooted(trees)
    requires trees[CharKey(p[0])].files == [] && CharKey(p[0]) !in disk
    ensures Search(db, Cleared(trees), {}, Saved(trees, disk), p).result == Some([])
  {
    var k := CharKey(p[0]);
    assert k in trees;
    SavedSkipsEmptyRoot(trees, disk, k);
    assert LoadTree(Saved(trees, disk), k).None?;
    ClearedRooted(trees);
    SearchOfUnloadableRoot(db, Cleared(trees), Saved(trees, disk), p);
    assert Cleared(trees)[k] == NewTree(k);
    WalkOfAccepted(db, NewTree(k), p[1..]);
    NodeFilesOfNewTree(k, KeySeq(p[1..]));
  }

  /** A name of two or more characters leaves its root without records of
      its own, so save_trees does not write that root. */
  lemma RootOfLongNameIsNotSaved(f: FileData)
    requires Insertable(f) && |f.fileName| >= 2
    ensures var built := InsertAll(FreshTrees(), [f]);
      var k := CharKey(f.fileName[0]);
      k in built && built[k].files == [] && k !in Saved(built, map[])
  {
    var built := InsertAll(FreshTrees(), [f]);
    var k := CharKey(f.fileName[0]);
    HitsOfLongName(f, [k]);
    HitsOfOne(f, [k]);
    BuiltRegistry([f], [k]);
    FreshTreesRooted();
    assert k in built;
    SavedSkipsEmptyRoot(built, map[], k);
  }

  lemma HitsOfOne(f: FileData, path: seq<string>)
    ensures HitsOf([f], path) == if Hits(f, path) then [f] else []
  {
    assert [f][..0] == [];
  }

  lemma SavedSkipsEmptyRoot(trees: map<string, Tree>, disk: map<string, Json>, k: string)
    requires k in trees && trees[k].files == [] && k !in disk
    ensures k !in Saved(trees, disk)
  {
  }

  /** On a root with no records whose document is missing or does not load,
      search_tree walks the root as it is. */
  lemma SearchOfUnloadableRoot(db: CharDb, trees: map<string, Tree>, disk: map<string, Json>, p: string)
    requires ValidDb(db) && CheckLetters(p) && p != [] && Rooted(trees)
    requires LoadTree(disk, CharKey(p[0])).None?
    ensures Search(db, trees, {}, disk, p).result == Walk(db, trees[CharKey(p[0])], p[1..])
  {
    GetValueOfLowered(db, p[0]);
  }

  /** The registry of root nodes and the saved root documents. */
  class Registry {
    /** The `trees` dictionary: one root per key. */
    var trees: map<string, Tree>
    /** The root documents on disk, `<key>tree.json`, as `json.load` reads them. */
    var disk: map<string, Json>
    /** The keys whose current root carries the `_loaded` mark. */
    var loaded: set<string>
    /** Python's character database. */
    const db: CharDb

    ghost predicate Valid()
      reads this
    {
      Rooted(trees) && ValidDb(db)
    }

    /** Module load: an empty root per key; the documents already on disk
        are given. */
    constructor (db0: CharDb, disk0: map<string, Json>)
      requires ValidDb(db0)
      ensures Valid()
      ensures trees == FreshTrees() && disk == disk0 && loaded == {} && db == db0
    {
      db := db0;
      trees := FreshTrees();
      disk := disk0;
      loaded := {};
    }

    /** clear_trees: every root replaced by a fresh one, so no root is
        marked as loaded any more. */
    method ClearTrees()
      requires Valid()
      modifies this
      ensures Valid()
      ensures trees == Cleared(old(trees)) && loaded == {} && disk == old(disk)
    {
      trees := Cleared(trees);
      loaded := {};
    }

    /** save_trees: writes the document of every root that holds records of
        its own. */
    method SaveTrees()
      requires Valid()
      modifies this
      ensures Valid()
      ensures disk == Saved(old(trees), old(disk)) && trees == old(trees) && loaded == old(loaded)
    {
      disk := Saved(trees, disk);
    }

    /** The corrected save_trees: writes the document of every root. */
    method SaveAllTrees()
      requires Valid()
      modifies this
      ensures Valid()
      ensures disk == SavedAll(old(trees), old(disk)) && trees == old(trees) && loaded == old(loaded)
    {
      disk := SavedAll(trees, disk);
    }

    /** One pass of build_trees's loop on a record with a name (lines
        103-126): skipped when check_letters refuses it, appended to its
        root's records when it has one character, inserted along the keys
        of its other characters otherwise. */
    method Insert(f: FileData)
      requires Rooted(trees) && f.fileName != []
      modifies this
      ensures trees == InsertRecord(old(trees), f)
      ensures disk == old(disk) && loaded == old(loaded)
    {
      if CheckLetters(f.fileName) {
        var ks := KeySeq(f.fileName);
        var root := trees[ks[0]];
        if |f.fileName| == 1 {
          trees := trees[ks[0] := root.(files := root.files + [f])];
        } else {
          trees := trees[ks[0] := InsertAlong(root, ks[1..], f)];
        }
      }
    }

    /** build_trees: inserts the records in order. It stops with `ok` false
        at the first empty name, where Python raises; the records before it
        stay inserted. `reports` lists the indices passed to the progress
        callback, each with `total` = |fileList|. */
    method BuildTrees(fileList: seq<FileData>) returns (ok: bool, reports: seq<nat>)
      requires Valid()
      modifies this
      ensures Valid()
      ensures ok <==> FirstEmpty(fileList) == |fileList|
      ensures trees == InsertAll(old(trees), fileList[..FirstEmpty(fileList)])
      ensures reports == Reports(fileList, FirstEmpty(fileList))
      ensures disk == old(disk) && loaded == old(loaded)
    {
      var i := 0;
      reports := [];
      while i < |fileList|
        invariant 0 <= i <= FirstEmpty(fileList)
        invariant trees == InsertAll(old(trees), fileList[..i])
        invariant reports == Reports(fileList, i)
        invariant disk == old(disk) && loaded == old(loaded)
      {
        var f := fileList[i];
        if f.fileName == [] {
          FirstEmptyAt(fileList, i);
          ok := false;
          return;
        }
        FirstEmptyPast(fileList, i);
        InsertAllStep(old(trees), fileList, i);
        ReportsStep(fileList, i);
        RootedOfSameKeys(old(trees), trees);
        Insert(f);
        if Insertable(f) && |f.fileName| >= 2 && i % 100 == 0 {
          reports := reports + [i];
        }
        i := i + 1;
      }
      RootedOfSameKeys(old(trees), trees);
      ok := true;
    }

    /** search_tree(prefix): None where get_value raises. */
    method SearchTree(prefix: string) returns (r: Option<seq<FileData>>)
      requires Valid()
      modifies this
      ensures Valid()
      ensures var o := Search(db, old(trees), old(loaded), old(disk), prefix);
        r == o.result && trees == o.trees && loaded == o.loaded
      ensures disk == old(disk)
    {
      if prefix == [] {
        return Some([]);
      }
      var first := GetValue(db, db.lower(prefix[0]));
      if first.None? {
        return None;
      }
      var k := first.value;
      if k !in trees {
        return Some([]);
      }
      if trees[k].files == [] && k !in loaded {
        var t := LoadTree(disk, k);
        if t.Some? {
          trees := trees[k := t.value];
          loaded := loaded + {k};
        }
      }
      assert (trees, loaded) == LazyLoad(old(trees), old(loaded), disk, k);
      RootedOfSameKeys(old(trees), trees);
      assert Search(db, old(trees), old(loaded), old(disk), prefix) == Outcome(Walk(db, trees[k], prefix[1..]), trees, loaded);
      var node := trees[k];
      var i := 1;
      while i < |prefix|
        invariant 1 <= i <= |prefix|
        invariant Walk(db, node, prefix[i..]) == Walk(db, trees[k], prefix[1..])
      {
        var key := GetValue(db, db.lower(prefix[i]));
        if key.None? {
          return None;
        }
        if key.value !in node.children {
          return Some([]);
        }
        assert prefix[i..][1..] == prefix[i + 1..];
        node := node.children[key.value];
        i := i + 1;
      }
      r := Some(node.files);
    }
  }
}
