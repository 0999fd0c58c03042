/** auto_index.py: indexing one file or folder as it appears, outside a full
    indexing run. The name-index half writes into the same `file_index` table
    as build_search_index, through an upsert of its own; the embedding half is
    reduced to its outcome. */
module AutoIndex {
  import opened Wrappers
  import opened PyString
  import opened PyPath
  import opened Config
  import opened Helpers
  import opened DataModels
  import opened SearchIndex

  // ---------------------------------------------------------------------
  // has_valid_characters

  /** has_valid_characters: every character is an ASCII letter, an ASCII
      digit or one of VALID_SYMBOLS. */
  predicate HasValidCharacters(s: string)
  {
    forall i | 0 <= i < |s| :: IsAsciiLetter(s[i]) || IsAsciiDigit(s[i]) || s[i] in ValidSymbols
  }

  /** It accepts exactly the names check_letters accepts. */
  lemma HasValidCharactersIsCheckLetters(s: string)
    ensures HasValidCharacters(s) <==> CheckLetters(s)
  {
  }

  // ---------------------------------------------------------------------
  // should_skip

  /** should_skip(path): the checks in their order, each one ending the test.
      Whether the path is a directory, carries the hidden attribute and is
      accessible is given. */
  predicate ShouldSkip(db: CharDb, platform: Platform, path: string, isDir: bool, attrHidden: bool, accessible: bool)
  {
    var name := Lower(db, Basename(path));
    if name in SkipFiles then true
    else if isDir && name in SkipFolders then true
    else if HasSkipPattern(name) then true
    else IsHidden(platform, path, attrHidden) || !accessible
  }

  /** The path is skipped exactly when one of the four rules applies; the
      skip patterns apply to files as well as to folders. */
  lemma ShouldSkipIff(db: CharDb, platform: Platform, path: string, isDir: bool, attrHidden: bool, accessible: bool)
    ensures ShouldSkip(db, platform, path, isDir, attrHidden, accessible) <==>
      var name := Lower(db, Basename(path));
      || name in SkipFiles
      || (isDir && name in SkipFolders)
      || HasSkipPattern(name)
      || IsHidden(platform, path, attrHidden)
      || !accessible
  {
  }

  /** A visible, accessible file named "tmp" is skipped: the skip patterns
      apply to files too. */
  lemma ShouldSkipTmpFile(db: CharDb)
    requires ValidDb(db)
    ensures ShouldSkip(db, Posix, "/tmp", false, false, true)
  {
    var p := "/tmp";
    assert Basename(p) == "tmp" by {
      assert p[0] == '/' && p[1] != '/' && p[2] != '/' && p[3] != '/';
      assert PyPath.LastIndex(p, '/') == 0;
      assert p[1..] == "tmp";
    }
    LowerOfAscii(db, "tmp");
    assert AsciiLowerStr("tmp") == "tmp";
    assert Contains("tmp", SkipPatterns[1]);
  }

  // ---------------------------------------------------------------------
  // is_path_in_indexed_paths

  /** What the loop of is_path_in_indexed_paths is after: `dir` is `file` or
      one of its ancestors. The drives agree and `dir`'s components lead
      `file`'s, all compared after normcase. */
  predicate IsUnder(db: CharDb, platform: Platform, file: AbsPath, dir: AbsPath)
  {
    && NormCase(db, platform, file.drive) == NormCase(db, platform, dir.drive)
    && |dir.parts| <= |file.parts|
    && forall i | 0 <= i < |dir.parts| :: NormCase(db, platform, file.parts[i]) == NormCase(db, platform, dir.parts[i])
  }

  /** The body of the loop for one indexed path: commonpath of the two,
      compared with the indexed path after normcase; false where commonpath
      raises ValueError (paths on different drives). */
  predicate CommonPathIsIndexed(db: CharDb, platform: Platform, file: AbsPath, dir: AbsPath)
  {
    match CommonPath(db, platform, file, dir)
    case None => false
    case Some(c) => SameNormCase(db, platform, c, dir)
  }

  lemma CommonPathIsIndexedIff(db: CharDb, platform: Platform, file: AbsPath, dir: AbsPath)
    ensures CommonPathIsIndexed(db, platform, file, dir) <==> IsUnder(db, platform, file, dir)
  {
    var n := CommonPrefixLength(db, platform, file.parts, dir.parts);
    if IsUnder(db, platform, file, dir) {
      assert n == |dir.parts|;
      var c := AbsPath(file.drive, file.parts[..n]);
      assert CommonPath(db, platform, file, dir) == Some(c);
      assert SameNormCase(db, platform, c, dir);
    }
    if CommonPathIsIndexed(db, platform, file, dir) {
      var c := CommonPath(db, platform, file, dir).value;
      assert c.parts == file.parts[..n];
      assert forall i | 0 <= i < |dir.parts| :: c.parts[i] == file.parts[i];
    }
  }

  /** is_path_in_indexed_paths(file, indexed): the indexed paths in order,
      the first one that holds the file answering True. Both paths are taken
      after `os.path.abspath`. */
  function IsPathInIndexedPaths(db: CharDb, platform: Platform, file: AbsPath, indexed: seq<AbsPath>): bool
  {
    if indexed == [] then false
    else CommonPathIsIndexed(db, platform, file, indexed[0]) || IsPathInIndexedPaths(db, platform, file, indexed[1..])
  }

  /** True exactly when some indexed path is the file or one of its
      ancestors; so never for an empty list, and never through a path on
      another drive. */
  lemma {:induction false} IsPathInIndexedPathsIff(db: CharDb, platform: Platform, file: AbsPath, indexed: seq<AbsPath>)
    ensures IsPathInIndexedPaths(db, platform, file, indexed) <==>
      exists i | 0 <= i < |indexed| :: IsUnder(db, platform, file, indexed[i])
  {
    if indexed != [] {
      CommonPathIsIndexedIff(db, platform, file, indexed[0]);
      IsPathInIndexedPathsIff(db, platform, file, indexed[1..]);
      if IsPathInIndexedPaths(db, platform, file, indexed[1..]) {
        var j :| 0 <= j < |indexed[1..]| && IsUnder(db, platform, file, indexed[1..][j]);
        assert IsUnder(db, platform, file, indexed[j + 1]);
      }
      if exists i | 0 <= i < |indexed| :: IsUnder(db, platform, file, indexed[i]) {
        var i :| 0 <= i < |indexed| && IsUnder(db, platform, file, indexed[i]);
        if i > 0 {
          assert indexed[1..][i - 1] == indexed[i];
        }
      }
    }
  }

  // ---------------------------------------------------------------------
  // get_file_category

  const AutoImageTypes: seq<string> := ["png", "jpg", "jpeg", "gif", "bmp", "webp", "tiff"]
  const AutoVideoTypes: seq<string> := ["mp4", "mkv", "mov", "avi", "wmv", "flv", "webm"]
  const AutoAudioTypes: seq<string> := ["mp3", "wav", "flac", "m4a", "aac", "ogg"]

  /** The category of an already lower-cased type under auto_index's tables. */
  function AutoCategoryOf(t: string): (c: string)
    ensures IsCategory(c)
  {
    if t == "folder" then "folder"
    else if t in AutoImageTypes then "image"
    else if t in AutoVideoTypes then "video"
    else if t in AutoAudioTypes then "audio"
    else if t in ArchiveTypes then "archive"
    else if t in DocumentTypes then "document"
    else "file"
  }

  /** auto_index's own get_file_category: "file" for an empty type, otherwise
      the lower-cased type looked up in its tables. */
  function AutoFileCategory(db: CharDb, fileType: string): (c: string)
    ensures IsCategory(c)
  {
    if fileType == [] then "file" else AutoCategoryOf(Lower(db, fileType))
  }

  /** The two get_file_category functions agree on every type except those
      only one of their tables lists: auto_index's lists tiff, wmv, flv,
      webm, aac and ogg, search/file_search.py's lists image, video and
      audio. */
  lemma CategoriesAgree(t: string)
    requires t !in ["tiff", "wmv", "flv", "webm", "aac", "ogg", "image", "video", "audio"]
    ensures AutoCategoryOf(t) == CategoryOf(t)
  {
  }

  /** "tiff" is an image to auto_index only. */
  lemma TiffCategoriesDiffer()
    ensures AutoCategoryOf("tiff") == "image" && CategoryOf("tiff") == "file"
  {
    assert AutoImageTypes[6] == "tiff";
  }

  /** The type "image" is an image to search/file_search.py only. */
  lemma ImageCategoriesDiffer()
    ensures AutoCategoryOf("image") == "file" && CategoryOf("image") == "image"
  {
    assert ImageTypes[6] == "image";
  }

  /** Each category is chosen exactly by its own table, and "file" by the
      types no table lists, the empty type included. */
  lemma AutoFileCategoryIff(db: CharDb, s: string)
    ensures s == [] ==> AutoFileCategory(db, s) == "file"
    ensures s != [] ==>
      var t := Lower(db, s);
      && (AutoFileCategory(db, s) == "image" <==> t != "folder" && t in AutoImageTypes)
      && (AutoFileCategory(db, s) == "video" <==> t != "folder" && t !in AutoImageTypes && t in AutoVideoTypes)
      && (AutoFileCategory(db, s) == "file" <==>
            t != "folder" && t !in AutoImageTypes && t !in AutoVideoTypes && t !in AutoAudioTypes
            && t !in ArchiveTypes && t !in DocumentTypes)
  {
  }

  // ---------------------------------------------------------------------
  // index_to_file_search_db

  /** The upsert of index_to_file_search_db. A new key gets `json_array(?)`
      of the record's JSON text: an array holding one JSON string. A conflict
      appends `json(?)` of that text: the record's dictionary. */
  function AutoUpsert(rows: map<string, Row>, e: Entry): map<string, Row>
  {
    Upsert(rows, e, Str(e.rec), Rec(e.rec))
  }

  /** The key, extension and category index_to_file_search_db computes for
      a record whose name passed the check. */
  function AutoEntry(db: CharDb, f: FileData): (e: Entry)
    requires ValidDb(db) && HasValidCharacters(f.fileName)
    ensures NameKey(db, f.fileName) == Some(e.key) && e.rec == f
    ensures e.ext == ExtOf(db, f.fileType) && e.cat == AutoFileCategory(db, f.fileType)
  {
    NameKeyOfAccepted(db, f.fileName);
    Entry(NameKey(db, f.fileName).value, ExtOf(db, f.fileType), AutoFileCategory(db, f.fileType), f)
  }

  /** The database state index_to_file_search_db leaves: a name that passes
      the check reaches `sqlite3.connect(FILE_SEARCH_DB)`, which creates a
      missing file, empty; the table is never created here. */
  function Connected(valid: bool, s: DbState): (t: DbState)
    ensures t == Ready <==> s == Ready
    ensures t == NoFile <==> s == NoFile && !valid
    ensures !valid ==> t == s
  {
    if valid && s == NoFile then NoTable else s
  }

  /** index_to_file_search_db on a missing database leaves a file without
      the table, and then search_db raises on every query with a key, until
      initiate_db creates the table. */
  lemma SearchDbAfterConnect(db: CharDb, rows: map<string, Row>, order: seq<string>,
                             query: string, limit: int, cats: seq<string>)
    requires query != [] && NameKey(db, query).Some?
    ensures Connected(true, NoFile) == NoTable
    ensures SearchDbResult(db, Connected(true, NoFile), rows, order, query, limit, cats) == None
  {
  }

  /** index_to_file_search_db(f): False, with nothing written, for a name
      with a character outside letters, digits and VALID_SYMBOLS, and where
      the statement raises because there is no table; True once the record
      is upserted. */
  method IndexToFileSearchDb(store: Store, db: CharDb, f: FileData) returns (ok: bool)
    requires ValidDb(db) && store.Valid()
    modifies store
    ensures store.Valid() && store.state == Connected(HasValidCharacters(f.fileName), old(store.state))
    ensures ok <==> HasValidCharacters(f.fileName) && old(store.state) == Ready
    ensures store.rows == if ok then AutoUpsert(old(store.rows), AutoEntry(db, f)) else old(store.rows)
  {
    if !HasValidCharacters(f.fileName) {
      return false;
    }
    var key := NormaliseKey(db, f.fileName);
    NameKeyOfAccepted(db, f.fileName);
    var ext := if f.fileType != [] then Lower(db, f.fileType) else "unknown";
    var cat := AutoFileCategory(db, f.fileType);
    if store.state != Ready {
      store.state := Connected(true, store.state);
      return false;
    }
    var e := Entry(key.value, ext, cat, f);
    UpsertKeepsSingletonNests(store.rows, e, Str(f), Rec(f));
    store.rows := AutoUpsert(store.rows, e);
    ok := true;
  }

  /** A later record under an existing key only gains an element at the end
      of that row; the row's extension and category stay, and no other row
      changes. */
  lemma AutoUpsertExisting(rows: map<string, Row>, e: Entry)
    requires e.key in rows
    ensures AutoUpsert(rows, e).Keys == rows.Keys
    ensures AutoUpsert(rows, e)[e.key] == rows[e.key].(elems := rows[e.key].elems + [Rec(e.rec)])
    ensures forall k | k in rows && k != e.key :: AutoUpsert(rows, e)[k] == rows[k]
  {
  }

  /** Finding: the element a new key gets is a JSON string, which search_db
      passes over, so the first record auto_index stores under a key is never
      among search_db's results. */
  lemma AutoIndexedRecordNotFound(db: CharDb, rows: map<string, Row>, order: seq<string>, e: Entry,
                                  query: string, limit: int, cats: seq<string>)
    requires e.key !in rows
    requires forall k | k in rows :: e.rec !in Flatten(rows[k].elems)
    requires SearchDbResult(db, Ready, AutoUpsert(rows, e), order, query, limit, cats).Some?
    ensures e.rec !in SearchDbResult(db, Ready, AutoUpsert(rows, e), order, query, limit, cats).value
  {
    var after := AutoUpsert(rows, e);
    var r := SearchDbResult(db, Ready, after, order, query, limit, cats).value;
    forall k | k in after ensures e.rec !in Flatten(after[k].elems) {
      if k == e.key {
        assert after[k].elems == [Str(e.rec)];
        assert Flatten([Str(e.rec)]) == [] + ElemFiles(Str(e.rec));
      } else {
        assert after[k] == rows[k];
      }
    }
    forall f | f in r ensures exists k | k in after :: f in Flatten(after[k].elems) {
      SearchDbSound(db, Ready, after, order, query, limit, cats, f);
    }
  }

  /** The same string element would make the reading of
      search_db_startswith raise, were it to open the DATA_DIR table
      auto_index writes, for every query whose key leads the new key. */
  lemma AutoIndexedRowBreaksStartswith(db: CharDb, rows: map<string, Row>, order: seq<string>, e: Entry, query: string)
    requires e.key !in rows && IsListing(order, AutoUpsert(rows, e))
    requires query != [] && NameKey(db, query).Some? && StartsWith(e.key, NameKey(db, query).value)
    ensures StartswithResult(db, Ready, AutoUpsert(rows, e), order, query) == None
  {
    var after := AutoUpsert(rows, e);
    assert after[e.key].elems[0] == Str(e.rec);
    ReadingRaises(db, after, order, query, e.key, Str(e.rec));
  }

  /** The upsert as evidently intended: `json_array(json(?))` on insert, so
      a new row holds the record's dictionary just as a conflict appends it. */
  function AutoUpsertFixed(rows: map<string, Row>, e: Entry): map<string, Row>
  {
    Upsert(rows, e, Rec(e.rec), Rec(e.rec))
  }

  /** Under the corrected upsert the record is in its row, and search_db
      returns it for every query whose key leads the record's key, once the
      limit leaves room for all that matches. */
  lemma AutoUpsertFixedIsFound(db: CharDb, rows: map<string, Row>, order: seq<string>, e: Entry,
                               query: string, limit: int, cats: seq<string>)
    requires IsListing(order, AutoUpsertFixed(rows, e))
    requires query != [] && NameKey(db, query).Some? && StartsWith(e.key, NameKey(db, query).value)
    requires cats == [] || AutoUpsertFixed(rows, e)[e.key].cat in cats
    requires var ms := Matches(AutoUpsertFixed(rows, e), order, NameKey(db, query).value, cats);
      |ms| <= limit && |Flatten(RowItems(AutoUpsertFixed(rows, e), ms))| < limit
    ensures e.rec in Flatten(AutoUpsertFixed(rows, e)[e.key].elems)
    ensures SearchDbResult(db, Ready, AutoUpsertFixed(rows, e), order, query, limit, cats).Some?
    ensures e.rec in SearchDbResult(db, Ready, AutoUpsertFixed(rows, e), order, query, limit, cats).value
  {
    var after := AutoUpsertFixed(rows, e);
    var p := NameKey(db, query).value;
    var elems := after[e.key].elems;
    assert elems[|elems| - 1] == Rec(e.rec);
    ElemInFlatten(elems, Rec(e.rec), e.rec);
    MatchesComplete(after, order, p, cats, e.key);
    var ms := Matches(after, order, p, cats);
    FlattenRowItemsHas(after, ms, e.key, e.rec);
    SearchDbComplete(db, Ready, after, order, query, limit, cats);
  }

  // ---------------------------------------------------------------------
  // chunk_text (a character budget per chunk)

  /** The loop state of chunk_text: the chunks closed so far (as word lists),
      `current_chunk` and `current_length`. */
  datatype Greedy = Greedy(closed: seq<seq<string>>, current: seq<string>, length: int)

  /** What `current_length` adds up to for a chunk: each word's length plus one. */
  function Cost(ws: seq<string>): int { TotalLength(ws) + |ws| }

  /** One pass of the loop with `word`. */
  function GreedyStep(g: Greedy, word: string, chunkSize: int): Greedy
  {
    var wl := |word| + 1;
    if g.length + wl > chunkSize && g.current != [] then Greedy(g.closed + [g.current], [word], wl)
    else Greedy(g.closed, g.current + [word], g.length + wl)
  }

  /** The loop state after the words `ws`. */
  function GreedyFold(ws: seq<string>, chunkSize: int): Greedy
  {
    if ws == [] then Greedy([], [], 0) else GreedyStep(GreedyFold(ws[..|ws| - 1], chunkSize), ws[|ws| - 1], chunkSize)
  }

  /** The chunks, as word lists: the closed ones and a last non-empty one. */
  function GreedyGroups(ws: seq<string>, chunkSize: int): seq<seq<string>>
  {
    var g := GreedyFold(ws, chunkSize);
    if g.current != [] then g.closed + [g.current] else g.closed
  }

  /** Each word list joined by single spaces. */
  function Joined(gs: seq<seq<string>>): (r: seq<string>)
    ensures |r| == |gs| && forall i | 0 <= i < |gs| :: r[i] == JoinSpace(gs[i])
  {
    seq(|gs|, i requires 0 <= i < |gs| => JoinSpace(gs[i]))
  }

  /** The word lists one after another. */
  function FlatWords(gs: seq<seq<string>>): seq<string>
  {
    if gs == [] then [] else FlatWords(gs[..|gs| - 1]) + gs[|gs| - 1]
  }

  lemma FlatWordsSnoc(gs: seq<seq<string>>, g: seq<string>)
    ensures FlatWords(gs + [g]) == FlatWords(gs) + g
  {
    assert (gs + [g])[..|gs|] == gs;
  }

  /** chunk_text(text, chunk_size): the greedy loop over `text.split()`. */
  method ChunkText(db: CharDb, text: string, chunkSize: int) returns (chunks: seq<string>)
    ensures chunks == Joined(GreedyGroups(Words(db, text), chunkSize))
  {
    var words := Words(db, text);
    chunks := [];
    var current: seq<string> := [];
    var currentLength := 0;
    ghost var closed: seq<seq<string>> := [];
    var i := 0;
    while i < |words|
      invariant 0 <= i <= |words|
      invariant GreedyFold(words[..i], chunkSize) == Greedy(closed, current, currentLength)
      invariant chunks == Joined(closed)
    {
      var word := words[i];
      var wordLength := |word| + 1;
      assert words[..i + 1][..i] == words[..i];
      if currentLength + wordLength > chunkSize && current != [] {
        chunks := chunks + [JoinSpace(current)];
        closed := closed + [current];
        current := [word];
        currentLength := wordLength;
      } else {
        current := current + [word];
        currentLength := currentLength + wordLength;
      }
      i := i + 1;
    }
    assert words[..i] == words;
    if current != [] {
      chunks := chunks + [JoinSpace(current)];
      closed := closed + [current];
    }
  }

  /** The first word of a chunk ("" for none). */
  function Head(ws: seq<string>): string { if ws == [] then "" else ws[0] }

  /** What the loop keeps, in four parts. The closed chunks and the current
      one spell out the words read, and `current_length` is the current
      chunk's cost. */
  ghost predicate Spells(ws: seq<string>, g: Greedy)
  {
    FlatWords(g.closed) + g.current == ws && g.length == Cost(g.current)
  }

  /** No chunk is empty, and the current one is empty only before the first word. */
  ghost predicate NonEmpty(g: Greedy)
  {
    (g.closed != [] ==> g.current != []) && forall i | 0 <= i < |g.closed| :: g.closed[i] != []
  }

  /** A chunk of two words or more costs at most the budget. */
  ghost predicate Fits(chunkSize: int, g: Greedy)
  {
    (|g.current| >= 2 ==> Cost(g.current) <= chunkSize)
    && forall i | 0 <= i < |g.closed| :: |g.closed[i]| >= 2 ==> Cost(g.closed[i]) <= chunkSize
  }

  /** Each closed chunk would have gone over the budget with the next
      chunk's first word. */
  ghost predicate Full(chunkSize: int, g: Greedy)
  {
    (forall i | 0 <= i < |g.closed| - 1 :: Cost(g.closed[i]) + |Head(g.closed[i + 1])| + 1 > chunkSize)
    && (g.closed != [] ==> Cost(g.closed[|g.closed| - 1]) + |Head(g.current)| + 1 > chunkSize)
  }

  ghost predicate GreedyInv(ws: seq<string>, chunkSize: int, g: Greedy)
  {
    Spells(ws, g) && NonEmpty(g) && Fits(chunkSize, g) && Full(chunkSize, g)
  }

  lemma CostSnoc(ws: seq<string>, w: string)
    ensures Cost(ws + [w]) == Cost(ws) + |w| + 1
  {
    TotalLengthAppend(ws, [w]);
  }

  /** Whether the step closes the current chunk. */
  predicate Closes(g: Greedy, w: string, chunkSize: int)
  {
    g.length + |w| + 1 > chunkSize && g.current != []
  }

  lemma SpellsStep(ws: seq<string>, w: string, chunkSize: int, g: Greedy)
    requires Spells(ws, g)
    ensures Spells(ws + [w], GreedyStep(g, w, chunkSize))
  {
    CostSnoc(g.current, w);
    if Closes(g, w, chunkSize) {
      FlatWordsSnoc(g.closed, g.current);
      CostSnoc([], w);
      assert [] + [w] == [w];
    }
  }

  lemma NonEmptyStep(w: string, chunkSize: int, g: Greedy)
    requires NonEmpty(g)
    ensures NonEmpty(GreedyStep(g, w, chunkSize))
  {
    var g' := GreedyStep(g, w, chunkSize);
    if Closes(g, w, chunkSize) {
      assert forall i | 0 <= i < |g.closed| :: g'.closed[i] == g.closed[i];
    }
  }

  lemma FitsStep(ws: seq<string>, w: string, chunkSize: int, g: Greedy)
    requires Spells(ws, g) && Fits(chunkSize, g)
    ensures Fits(chunkSize, GreedyStep(g, w, chunkSize))
  {
    var g' := GreedyStep(g, w, chunkSize);
    CostSnoc(g.current, w);
    if Closes(g, w, chunkSize) {
      assert forall i | 0 <= i < |g.closed| :: g'.closed[i] == g.closed[i];
      assert g'.closed[|g.closed|] == g.current;
    }
  }

  lemma FullStep(ws: seq<string>, w: string, chunkSize: int, g: Greedy)
    requires Spells(ws, g) && NonEmpty(g) && Full(chunkSize, g)
    ensures Full(chunkSize, GreedyStep(g, w, chunkSize))
  {
    var g' := GreedyStep(g, w, chunkSize);
    if Closes(g, w, chunkSize) {
      assert forall i | 0 <= i < |g.closed| :: g'.closed[i] == g.closed[i];
      assert g'.closed[|g.closed|] == g.current;
      assert Head(g'.current) == w;
    } else if g.current != [] {
      assert Head(g'.current) == Head(g.current);
    }
  }

  lemma {:induction false} GreedyFoldInv(ws: seq<string>, chunkSize: int)
    ensures GreedyInv(ws, chunkSize, GreedyFold(ws, chunkSize))
  {
    if ws != [] {
      var init, w := ws[..|ws| - 1], ws[|ws| - 1];
      var g := GreedyFold(init, chunkSize);
      GreedyFoldInv(init, chunkSize);
      assert init + [w] == ws;
      SpellsStep(init, w, chunkSize, g);
      NonEmptyStep(w, chunkSize, g);
      FitsStep(init, w, chunkSize, g);
      FullStep(init, w, chunkSize, g);
    }
  }

  /** The chunks spell out the words in order, none is empty, and there are
      none exactly when there are no words. */
  lemma GreedyGroupsCover(ws: seq<string>, chunkSize: int)
    ensures FlatWords(GreedyGroups(ws, chunkSize)) == ws
    ensures forall i | 0 <= i < |GreedyGroups(ws, chunkSize)| :: GreedyGroups(ws, chunkSize)[i] != []
    ensures GreedyGroups(ws, chunkSize) == [] <==> ws == []
  {
    var g := GreedyFold(ws, chunkSize);
    GreedyFoldInv(ws, chunkSize);
    if g.current != [] {
      FlatWordsSnoc(g.closed, g.current);
    } else {
      assert g.closed == [];
    }
  }

  predicate GroupsFit(gs: seq<seq<string>>, chunkSize: int)
  {
    forall i | 0 <= i < |gs| :: |gs[i]| >= 2 ==> Cost(gs[i]) <= chunkSize
  }

  predicate GroupsFull(gs: seq<seq<string>>, chunkSize: int)
  {
    forall i | 0 <= i < |gs| - 1 :: Cost(gs[i]) + |Head(gs[i + 1])| + 1 > chunkSize
  }

  /** A chunk of two words or more costs at most the budget; each chunk but
      the last would go over it with the next chunk's first word. */
  lemma GreedyGroupsFit(ws: seq<string>, chunkSize: int)
    ensures GroupsFit(GreedyGroups(ws, chunkSize), chunkSize)
    ensures GroupsFull(GreedyGroups(ws, chunkSize), chunkSize)
  {
    var g := GreedyFold(ws, chunkSize);
    GreedyFoldInv(ws, chunkSize);
    GreedyGroupsCover(ws, chunkSize);
    var gs := GreedyGroups(ws, chunkSize);
    if g.current != [] {
      assert forall i | 0 <= i < |g.closed| :: gs[i] == g.closed[i];
      assert gs[|g.closed|] == g.current;
    }
  }

  /** For the chunk strings: splitting each chunk gives back its words, so
      the chunks' words one after another are `text.split()`; a chunk of two
      words or more is shorter than `chunk_size`. */
  lemma ChunkTextWords(db: CharDb, text: string, chunkSize: int, i: nat)
    requires ValidDb(db)
    requires i < |GreedyGroups(Words(db, text), chunkSize)|
    ensures var g := GreedyGroups(Words(db, text), chunkSize)[i];
      && Words(db, Joined(GreedyGroups(Words(db, text), chunkSize))[i]) == g
      && (|g| >= 2 ==> |Joined(GreedyGroups(Words(db, text), chunkSize))[i]| < chunkSize)
  {
    var ws := Words(db, text);
    var gs := GreedyGroups(ws, chunkSize);
    GreedyGroupsCover(ws, chunkSize);
    GreedyGroupsFit(ws, chunkSize);
    GroupWords(ws, gs, i);
    WordsOfJoinSpace(db, gs[i]);
    JoinSpaceLength(gs[i]);
  }

  /** Every word of a group is a word of the whole sequence. */
  lemma {:induction false} GroupWords(ws: seq<string>, gs: seq<seq<string>>, i: nat)
    requires FlatWords(gs) == ws && i < |gs|
    ensures forall j | 0 <= j < |gs[i]| :: gs[i][j] in ws
    decreases gs
  {
    var init := gs[..|gs| - 1];
    if i < |gs| - 1 {
      GroupWords(FlatWords(init), init, i);
      assert init[i] == gs[i];
    } else {
      var a := FlatWords(init);
      assert forall j | 0 <= j < |gs[i]| :: (a + gs[i])[|a| + j] == gs[i][j];
    }
  }

  // ---------------------------------------------------------------------
  // auto_index

  /** Whether the path exists, is a directory, carries the hidden attribute
      and is accessible: the file system's answers. */
  datatype Probe = Probe(present: bool, isDir: bool, attrHidden: bool, accessible: bool)

  /** The `image_paths` and `document_paths` lists get_indexed_paths loads. */
  datatype IndexedPaths = IndexedPaths(imagePaths: seq<AbsPath>, documentPaths: seq<AbsPath>)

  /** `os.path.splitext(basename)[1].lower()` for a file; None for a folder. */
  function AutoExt(db: CharDb, isDir: bool, name: string): Option<string>
  {
    if isDir then None else Some(Lower(db, SplitExt(name)))
  }

  /** The type auto_index records: "folder" for a directory; for a file the
      extension without its dots, or "unknown" when there is no extension. */
  function AutoKind(db: CharDb, isDir: bool, name: string): string
  {
    match AutoExt(db, isDir, name)
    case None => "folder"
    case Some(ext) => if ext != [] then StripChar(ext, '.') else "unknown"
  }

  /** The record auto_index builds for the path. */
  function AutoRecord(db: CharDb, path: AbsPath, isDir: bool): (f: FileData)
    ensures f.fileName == Basename(Render(path)) && f.filePath == Render(path)
    ensures f.length == |f.fileName|
  {
    var name := Basename(Render(path));
    NewFileData(name, Render(path), AutoKind(db, isDir, name))
  }

  /** Which embedding step follows the upsert: the image step for an image
      extension inside an indexed image path, the text step for a document
      extension inside an indexed document path, otherwise none. */
  datatype Embedding = NoEmbedding | ImageEmbedding | TextEmbedding

  function EmbeddingFor(db: CharDb, platform: Platform, path: AbsPath, ext: Option<string>,
                        indexed: IndexedPaths, docExts: set<string>): (m: Embedding)
    ensures m == ImageEmbedding <==>
      ext.Some? && ext.value in ValidImageExtensions && IsPathInIndexedPaths(db, platform, path, indexed.imagePaths)
    ensures m == TextEmbedding <==>
      ext.Some? && ext.value !in ValidImageExtensions && ext.value in docExts
      && IsPathInIndexedPaths(db, platform, path, indexed.documentPaths)
  {
    if ext.Some? && ext.value in ValidImageExtensions then
      if IsPathInIndexedPaths(db, platform, path, indexed.imagePaths) then ImageEmbedding else NoEmbedding
    else if ext.Some? && ext.value in docExts then
      if IsPathInIndexedPaths(db, platform, path, indexed.documentPaths) then TextEmbedding else NoEmbedding
    else NoEmbedding
  }

  /** The answer once the record has gone to the name index: the upsert's
      success, AND-ed with the embedding step's where one runs. */
  predicate Outcome(stored: bool, m: Embedding, imageOk: bool, documentOk: bool)
  {
    stored && (m == ImageEmbedding ==> imageOk) && (m == TextEmbedding ==> documentOk)
  }

  /** auto_index(path): False for a path that does not exist or is skipped,
      with nothing written. Otherwise the record goes to the name index, and
      the answer is that upsert's success, AND-ed with the embedding step's
      success where one runs (`imageOk`, `documentOk`: what index_image and
      index_document return). VALID_DOCUMENT_EXTENSIONS is `docExts`. */
  method AutoIndex(store: Store, db: CharDb, platform: Platform, path: AbsPath, probe: Probe,
                   indexed: IndexedPaths, docExts: set<string>, imageOk: bool, documentOk: bool)
    returns (ok: bool)
    requires ValidDb(db) && store.Valid()
    modifies store
    ensures store.Valid()
    ensures !probe.present || ShouldSkip(db, platform, Render(path), probe.isDir, probe.attrHidden, probe.accessible)
      ==> !ok && store.state == old(store.state) && store.rows == old(store.rows)
    ensures probe.present && !ShouldSkip(db, platform, Render(path), probe.isDir, probe.attrHidden, probe.accessible)
      ==> Indexed(db, platform, path, probe.isDir, indexed, docExts, imageOk, documentOk,
                  old(store.state), old(store.rows), ok, store.state, store.rows)
  {
    var p := Render(path);
    if !probe.present {
      return false;
    }
    if ShouldSkip(db, platform, p, probe.isDir, probe.attrHidden, probe.accessible) {
      return false;
    }
    ok := IndexPath(store, db, platform, path, probe.isDir, indexed, docExts, imageOk, documentOk);
  }

  /** What auto_index does with a path it goes on with: `ok` and the new
      database, given the database before. */
  ghost predicate Indexed(db: CharDb, platform: Platform, path: AbsPath, isDir: bool, indexed: IndexedPaths,
                          docExts: set<string>, imageOk: bool, documentOk: bool,
                          state: DbState, before: map<string, Row>, ok: bool, state': DbState, after: map<string, Row>)
    requires ValidDb(db)
  {
    var f := AutoRecord(db, path, isDir);
    var stored := HasValidCharacters(f.fileName) && state == Ready;
    var m := EmbeddingFor(db, platform, path, AutoExt(db, isDir, f.fileName), indexed, docExts);
    && state' == Connected(HasValidCharacters(f.fileName), state)
    && (ok <==> Outcome(stored, m, imageOk, documentOk))
    && after == (if stored then AutoUpsert(before, AutoEntry(db, f)) else before)
  }

  /** The part of auto_index after the two early returns. */
  method IndexPath(store: Store, db: CharDb, platform: Platform, path: AbsPath, isDir: bool,
                   indexed: IndexedPaths, docExts: set<string>, imageOk: bool, documentOk: bool)
    returns (ok: bool)
    requires ValidDb(db) && store.Valid()
    modifies store
    ensures store.Valid()
    ensures Indexed(db, platform, path, isDir, indexed, docExts, imageOk, documentOk,
                    old(store.state), old(store.rows), ok, store.state, store.rows)
  {
    var p := Render(path);
    var name := Basename(p);
    var ext: Option<string>;
    var fileType: string;
    if isDir {
      fileType := "folder";
      ext := None;
    } else {
      ext := Some(Lower(db, SplitExt(name)));
      fileType := if ext.value != [] then StripChar(ext.value, '.') else "unknown";
    }
    var f := NewFileData(name, p, fileType);
    assert f == AutoRecord(db, path, isDir);
    var success := IndexToFileSearchDb(store, db, f);
    if ext.Some? && ext.value in ValidImageExtensions {
      if IsPathInIndexedPaths(db, platform, path, indexed.imagePaths) {
        success := success && imageOk;
      }
    } else if ext.Some? && ext.value in docExts {
      if IsPathInIndexedPaths(db, platform, path, indexed.documentPaths) {
        success := success && documentOk;
      }
    }
    ok := success;
  }

  /** A file's recorded type for an ASCII name with an extension: the
      extension lower-cased, without its dot. */
  lemma AutoKindOfAscii(db: CharDb, name: string, e: string)
    requires ValidDb(db) && AllAscii(name) && SplitExt(name) == "." + e && e != []
    ensures AutoKind(db, false, name) == AsciiLowerStr(e)
  {
    var x := SplitExt(name);
    assert AllAscii(x) by {
      var d := PyPath.LastIndex(Basename(name), '.');
      assert forall i | 0 <= i < |x| :: x[i] == name[PyPath.LastIndex(name, '/') + 1 + d + i];
    }
    LowerOfAscii(db, x);
    AsciiLowerStrAppend(".", e);
    var le := AsciiLowerStr(e);
    assert AsciiLowerStr(".") == ".";
    assert '.' !in e;
    assert forall i | 0 <= i < |le| :: le[i] != '.' by {
      forall i | 0 <= i < |le| ensures le[i] != '.' { assert le[i] == AsciiLower(e[i]); }
    }
    assert TrimStart("." + le, '.') == TrimStart(le, '.');
    assert TrimStart(le, '.') == le;
    assert TrimEnd(le, '.') == le;
  }

  /** A folder is recorded with the type "folder", whatever its name. */
  lemma AutoKindOfFolder(db: CharDb, name: string)
    ensures AutoKind(db, true, name) == "folder"
  {
  }
}
