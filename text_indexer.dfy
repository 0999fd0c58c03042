/** indexing/text_indexer.py: the sliding word-window chunker, the choice of
    chunks chunk_and_save stores, the search for document files, and the
    status and progress of index_documents. */
module TextIndexer {
  import opened Wrappers
  import opened PyString
  import opened PyPath
  import opened Config
  import opened DirTree

  // ---------------------------------------------------------------------
  // chunk_text

  /** `ws[start:stop]` for a non-negative start: a negative stop counts from
      the end, and both ends are clamped to the list. */
  function PySlice<T>(ws: seq<T>, start: nat, stop: int): seq<T>
  {
    var n := |ws|;
    var hi := if stop < 0 then (if stop + n < 0 then 0 else stop + n) else if stop > n then n else stop;
    var lo := if start > n then n else start;
    if lo < hi then ws[lo..hi] else []
  }

  function Min(a: int, b: int): int { if a <= b then a else b }

  /** The pieces `f(i)`, `f(i + step)`, ... for the starts below `n`, in order. */
  function Stride<T>(f: nat -> seq<T>, n: nat, step: int, i: nat): seq<T>
    requires step > 0
    decreases n - i
  {
    if i >= n then [] else f(i) + Stride(f, n, step, i + step)
  }

  /** Every start below `n` gives exactly one piece. */
  ghost predicate Single<T>(f: nat -> seq<T>, n: nat)
  {
    forall j: nat | j < n :: |f(j)| == 1
  }

  /** The number of steps of `step` from 0 that stay below `m`. */
  function Steps(m: int, step: int): nat
    requires step > 0
    decreases m
  {
    if m <= 0 then 0 else 1 + Steps(m - step, step)
  }

  lemma MulSucc(k: int, step: int)
    ensures k * step + step == (k + 1) * step
  {
  }

  /** Steps(m, step) is ceil(m / step): the least count of steps reaching `m`. */
  lemma {:induction false} StepsBound(m: int, step: int)
    requires step > 0 && m > 0
    ensures (Steps(m, step) - 1) * step < m <= Steps(m, step) * step
    decreases m
  {
    if m > step {
      StepsBound(m - step, step);
      var c := Steps(m - step, step);
      MulSucc(c, step);
      MulSucc(c - 1, step);
    }
  }

  /** `k` steps of `step`, added up one at a time: `k * step` by
      OffsetIsProduct. */
  function Offset(k: nat, step: int): (o: int)
    ensures step >= 0 ==> o >= 0
  {
    if k == 0 then 0 else Offset(k - 1, step) + step
  }

  lemma {:induction false} OffsetIsProduct(k: nat, step: int)
    ensures Offset(k, step) == k * step
  {
    if k > 0 {
      OffsetIsProduct(k - 1, step);
      MulSucc(k - 1, step);
    }
  }

  /** With one piece per start, there are as many pieces as steps. */
  lemma {:induction false} StrideCount<T>(f: nat -> seq<T>, n: nat, step: int, i: nat)
    requires step > 0 && Single(f, n)
    ensures |Stride(f, n, step, i)| == Steps(n - i, step)
    decreases n - i
  {
    if i < n {
      assert |f(i)| == 1;
      StrideCount(f, n, step, i + step);
    }
  }

  /** With one piece per start, the `k`-th piece from `i` on is the one of the
      start `k` steps after `i`. */
  lemma {:induction false} StrideAt<T>(f: nat -> seq<T>, n: nat, step: int, i: nat, k: nat)
    requires step > 0 && Single(f, n) && i + Offset(k, step) < n
    ensures k < |Stride(f, n, step, i)| && Stride(f, n, step, i)[k] == f(i + Offset(k, step))[0]
    decreases k
  {
    assert |f(i)| == 1;
    if k > 0 {
      assert Offset(k, step) == Offset(k - 1, step) + step;
      StrideAt(f, n, step, i + step, k - 1);
    }
  }

  /** The chunk of the window of `size` words from `i`: the words joined by
      single spaces, dropped when blank. */
  function Chunk(db: CharDb, ws: seq<string>, size: int, i: nat): seq<string>
  {
    var chunk := JoinSpace(PySlice(ws, i, i + size));
    if !AllSpace(db, chunk) then [chunk] else []
  }

  function Chunker(db: CharDb, ws: seq<string>, size: int): nat -> seq<string>
  {
    (i: nat) => Chunk(db, ws, size, i)
  }

  /** chunk_text(text, size, overlap). `range` raises on a zero step (None)
      and is empty for a negative one. */
  function SlidingChunks(db: CharDb, text: string, size: int, overlap: int): Option<seq<string>>
  {
    var step := size - overlap;
    var ws := Words(db, text);
    if step == 0 then None
    else if step < 0 then Some([])
    else Some(Windows(db, ws, size, step, 0))
  }

  method ChunkText(db: CharDb, text: string, size: int, overlap: int) returns (r: Option<seq<string>>)
    ensures r == SlidingChunks(db, text, size, overlap)
  {
    var words := Words(db, text);
    var step := size - overlap;
    if step == 0 {
      return None;
    }
    var chunks := [];
    if step > 0 {
      chunks := WindowChunks(db, words, size, step);
    }
    return Some(chunks);
  }

  /** The chunks of the windows from the `i`-th word on. */
  function Windows(db: CharDb, words: seq<string>, size: int, step: int, i: nat): seq<string>
    requires step > 0
  {
    Stride(Chunker(db, words, size), |words|, step, i)
  }

  lemma WindowsStep(db: CharDb, words: seq<string>, size: int, step: int, i: nat, acc: seq<string>, acc': seq<string>)
    requires step > 0 && i < |words| && acc + Windows(db, words, size, step, i) == Windows(db, words, size, step, 0)
    requires acc' == acc + Chunk(db, words, size, i)
    ensures acc' + Windows(db, words, size, step, i + step) == Windows(db, words, size, step, 0)
  {
    assert Chunker(db, words, size)(i) == Chunk(db, words, size, i);
    StrideStep(Chunker(db, words, size), |words|, step, i, acc, acc');
  }

  /** The loop of chunk_text over the window starts 0, step, 2 * step, ... */
  method WindowChunks(db: CharDb, words: seq<string>, size: int, step: int) returns (chunks: seq<string>)
    requires step > 0
    ensures chunks == Windows(db, words, size, step, 0)
  {
    chunks := [];
    var i := 0;
    while i < |words|
      invariant chunks + Windows(db, words, size, step, i) == Windows(db, words, size, step, 0)
      decreases |words| - i
    {
      chunks := AddWindow(db, words, size, step, i, chunks);
      i := i + step;
    }
    assert Windows(db, words, size, step, i) == [];
    assert chunks + [] == chunks;
  }

  /** One pass of the loop: the window from `i` joined, and kept unless blank. */
  method AddWindow(db: CharDb, words: seq<string>, size: int, step: int, i: nat, chunks: seq<string>)
    returns (chunks': seq<string>)
    requires step > 0 && i < |words| && chunks + Windows(db, words, size, step, i) == Windows(db, words, size, step, 0)
    ensures chunks' + Windows(db, words, size, step, i + step) == Windows(db, words, size, step, 0)
  {
    var chunk := JoinSpace(PySlice(words, i, i + size));
    chunks' := chunks;
    if !AllSpace(db, chunk) {
      chunks' := chunks + [chunk];
    } else {
      assert chunks + [] == chunks;
    }
    WindowsStep(db, words, size, step, i, chunks, chunks');
  }

  /** A loop that appends each piece in turn keeps what it has and what is
      still to come adding up to all the pieces. */
  lemma StrideStep<T>(f: nat -> seq<T>, n: nat, step: int, i: nat, acc: seq<T>, acc': seq<T>)
    requires step > 0 && i < n && acc + Stride(f, n, step, i) == Stride(f, n, step, 0) && acc' == acc + f(i)
    ensures acc' + Stride(f, n, step, i + step) == Stride(f, n, step, 0)
  {
    ConcatAssoc(acc, f(i), Stride(f, n, step, i + step));
  }

  /** The words `Words` produces: non-empty, without whitespace. */
  predicate Spelt(db: CharDb, ws: seq<string>)
  {
    forall i | 0 <= i < |ws| :: ws[i] != [] && NoSpace(db, ws[i])
  }

  /** Words joined by spaces are not blank. */
  lemma JoinSpaceNotBlank(db: CharDb, ws: seq<string>)
    requires ws != [] && Spelt(db, ws)
    ensures !AllSpace(db, JoinSpace(ws))
  {
    var j := JoinSpace(ws);
    if |ws| > 1 {
      assert j == ws[0] + (" " + JoinSpace(ws[1..]));
    }
    assert j[0] == ws[0][0];
  }

  /** A window that starts at a word is never blank. */
  lemma ChunkOfWord(db: CharDb, ws: seq<string>, size: int, i: nat)
    requires size > 0 && Spelt(db, ws) && i < |ws|
    ensures Chunk(db, ws, size, i) == [JoinSpace(ws[i..Min(i + size, |ws|)])]
  {
    var slice := ws[i..Min(i + size, |ws|)];
    assert PySlice(ws, i, i + size) == slice;
    assert forall k | 0 <= k < |slice| :: slice[k] == ws[i + k];
    JoinSpaceNotBlank(db, slice);
  }

  lemma ChunkerSingle(db: CharDb, ws: seq<string>, size: int)
    requires size > 0 && Spelt(db, ws)
    ensures Single(Chunker(db, ws, size), |ws|)
  {
    forall j: nat | j < |ws|
      ensures |Chunker(db, ws, size)(j)| == 1
    {
      ChunkOfWord(db, ws, size, j);
    }
  }


  /** With `0 < size` and `overlap < size`, n words give one chunk per
      window start below n: Steps(n, size - overlap) chunks, which is
      ceil(n / (size - overlap)) by StepsBound. */
  lemma ChunkCount(db: CharDb, text: string, size: int, overlap: int)
    requires ValidDb(db) && 0 < size && overlap < size
    ensures SlidingChunks(db, text, size, overlap).Some?
    ensures |SlidingChunks(db, text, size, overlap).value| == Steps(|Words(db, text)|, size - overlap)
  {
    var ws := Words(db, text);
    var step := size - overlap;
    assert SlidingChunks(db, text, size, overlap) == Some(Windows(db, ws, size, step, 0));
    ChunkerSingle(db, ws, size);
    StrideCount(Chunker(db, ws, size), |ws|, step, 0);
  }

  /** With `0 < size` and `overlap < size`, chunk `k` is the words from
      `start = k * (size - overlap)` up to `start + size` (fewer at the end)
      joined by single spaces: the chunks follow the text in order, each at
      most `size` words long. */
  lemma ChunkAt(db: CharDb, text: string, size: int, overlap: int, k: nat, start: nat)
    requires ValidDb(db) && 0 < size && overlap < size && start == k * (size - overlap) && start < |Words(db, text)|
    ensures SlidingChunks(db, text, size, overlap).Some?
    ensures var ws, cs := Words(db, text), SlidingChunks(db, text, size, overlap).value;
      && k < |cs|
      && cs[k] == JoinSpace(Window(ws, size, start))
      && Words(db, cs[k]) == Window(ws, size, start)
      && |Words(db, cs[k])| <= size
  {
    var ws := Words(db, text);
    var cs := Stride(Chunker(db, ws, size), |ws|, size - overlap, 0);
    assert SlidingChunks(db, text, size, overlap) == Some(cs);
    OffsetIsProduct(k, size - overlap);
    WindowAt(db, ws, size, size - overlap, k);
    WindowWords(db, ws, size, start);
  }

  /** The words of the window of `size` words from `start`, fewer at the end. */
  function Window(ws: seq<string>, size: int, start: nat): seq<string>
    requires 0 < size && start <= |ws|
  {
    ws[start..Min(start + size, |ws|)]
  }

  /** The `k`-th window of a list of words, `k` steps from its start. */
  lemma WindowAt(db: CharDb, ws: seq<string>, size: int, step: int, k: nat)
    requires ValidDb(db) && 0 < size && 0 < step && Spelt(db, ws) && Offset(k, step) < |ws|
    ensures k < |Stride(Chunker(db, ws, size), |ws|, step, 0)|
    ensures Stride(Chunker(db, ws, size), |ws|, step, 0)[k] == JoinSpace(Window(ws, size, Offset(k, step)))
  {
    var start := Offset(k, step);
    var f := Chunker(db, ws, size);
    ChunkerSingle(db, ws, size);
    StrideAt(f, |ws|, step, 0, k);
    ChunkOfWord(db, ws, size, start);
    assert f(start) == Chunk(db, ws, size, start);
  }

  /** The window's words come back out of its chunk under `split`. */
  lemma WindowWords(db: CharDb, ws: seq<string>, size: int, start: nat)
    requires ValidDb(db) && 0 < size && Spelt(db, ws) && start <= |ws|
    ensures Words(db, JoinSpace(Window(ws, size, start))) == Window(ws, size, start)
    ensures |Window(ws, size, start)| <= size
  {
    SliceSpelt(db, ws, start, Min(start + size, |ws|));
    WordsOfJoinSpace(db, Window(ws, size, start));
  }

  lemma SliceSpelt(db: CharDb, ws: seq<string>, lo: nat, hi: nat)
    requires Spelt(db, ws) && lo <= hi <= |ws|
    ensures Spelt(db, ws[lo..hi])
  {
    assert forall i | 0 <= i < hi - lo :: ws[lo..hi][i] == ws[lo + i];
  }

  /** `j` lies in the `k`-th run of `step`. */
  lemma {:induction false} FloorDiv(j: nat, step: int) returns (k: nat)
    requires step > 0
    ensures Offset(k, step) <= j < Offset(k, step) + step
    decreases j
  {
    if j < step {
      k := 0;
    } else {
      var k' := FloorDiv(j - step, step);
      k := k' + 1;
      assert Offset(k, step) == Offset(k', step) + step;
    }
  }

  /** `chunk` holds word `j` of `ws`: its words are the window that starts
      `start` words in, and `j` is among the first `step` words of that
      window. */
  ghost predicate Covers(db: CharDb, ws: seq<string>, size: int, step: int, start: int, chunk: string, j: nat)
  {
    && 0 < size && 0 <= start <= j < start + step && j < |ws|
    && Words(db, chunk) == Window(ws, size, start)
    && j - start < |Window(ws, size, start)| && Window(ws, size, start)[j - start] == ws[j]
  }

  /** With `0 <= overlap < size`, every word lies in a chunk, the one whose
      window starts at or before it and less than `size - overlap` words
      before it. */
  lemma WordCovered(db: CharDb, text: string, size: int, overlap: int, j: nat)
    requires ValidDb(db) && 0 <= overlap < size && j < |Words(db, text)|
    ensures var ws, cs := Words(db, text), SlidingChunks(db, text, size, overlap).value;
      exists k | 0 <= k < |cs| :: Covers(db, ws, size, size - overlap, Offset(k, size - overlap), cs[k], j)
  {
    var k := FloorDiv(j, size - overlap);
    WordInChunk(db, text, size, overlap, j, k);
  }

  lemma WordInChunk(db: CharDb, text: string, size: int, overlap: int, j: nat, k: nat)
    requires ValidDb(db) && 0 <= overlap < size && j < |Words(db, text)|
    requires Offset(k, size - overlap) <= j < Offset(k, size - overlap) + (size - overlap)
    ensures SlidingChunks(db, text, size, overlap).Some?
    ensures var ws, cs := Words(db, text), SlidingChunks(db, text, size, overlap).value;
      k < |cs| && Covers(db, ws, size, size - overlap, Offset(k, size - overlap), cs[k], j)
  {
    var ws, step := Words(db, text), size - overlap;
    var start := Offset(k, step);
    assert SlidingChunks(db, text, size, overlap) == Some(Windows(db, ws, size, step, 0));
    WindowAt(db, ws, size, step, k);
    WindowWords(db, ws, size, start);
    WindowHas(ws, size, start, j);
  }

  lemma WindowHas(ws: seq<string>, size: int, start: nat, j: nat)
    requires 0 < size && start <= j < start + size && j < |ws|
    ensures Window(ws, size, start)[j - start] == ws[j]
  {
  }

  /** A step larger than the window skips words: with size 1 and overlap
      -1, the second of two words is in no chunk. */
  lemma NegativeOverlapSkips(db: CharDb)
    requires ValidDb(db)
    ensures SlidingChunks(db, "a b", 1, -1) == Some(["a"])
  {
    var t := "a b";
    WordsOfJoinSpace(db, ["a", "b"]);
    assert JoinSpace(["a", "b"]) == t;
    var ws := ["a", "b"];
    ChunkOfWord(db, ws, 1, 0);
    assert ws[0..Min(0 + 1, 2)] == ["a"];
    assert JoinSpace(["a"]) == "a";
    assert Words(db, t) == ws;
    assert Stride(Chunker(db, ws, 1), 2, 2, 2) == [];
    assert Chunker(db, ws, 1)(0) == Chunk(db, ws, 1, 0) == ["a"];
    assert Stride(Chunker(db, ws, 1), 2, 2, 0) == ["a"] + [];
    assert SlidingChunks(db, t, 1, -1) == Some(Stride(Chunker(db, ws, 1), 2, 2, 0));
    assert ["a"] + [] == ["a"];
    assert SlidingChunks(db, t, 1, -1) == Some(["a"]);
  }

  // ---------------------------------------------------------------------
  // chunk_and_save

  /** The chunks chunk_and_save stores for a document whose extraction gave
      `extracted` (None where extract_text raised; the text already
      stripped otherwise): nothing for a failure or an empty text; the
      windows of 1000 words overlapping by 100 for a text of more than 1000
      words; the whole text as its one chunk otherwise. */
  function ChunksToSave(db: CharDb, extracted: Option<string>): seq<string>
  {
    match extracted
    case None => []
    case Some(text) =>
      if text == [] then []
      else if |Words(db, text)| > 1000 then SlidingChunks(db, text, 1000, 100).value
      else [text]
  }

  lemma ChunksToSaveNothing(db: CharDb, extracted: Option<string>)
    requires extracted == None || extracted == Some("")
    ensures ChunksToSave(db, extracted) == []
  {
  }

  /** A text of at most 1000 words is stored whole. */
  lemma ChunksToSaveShort(db: CharDb, text: string)
    requires text != [] && |Words(db, text)| <= 1000
    ensures ChunksToSave(db, Some(text)) == [text]
  {
  }

  /** A longer text is stored as chunk_text(text) gives it: ceil(n / 900)
      chunks, at least two, of at most 1000 words each, chunk `k` starting at
      word `900 * k`. */
  lemma ChunksToSaveLong(db: CharDb, text: string, k: nat)
    requires ValidDb(db) && |Words(db, text)| > 1000 && k * 900 < |Words(db, text)|
    ensures ChunksToSave(db, Some(text)) == SlidingChunks(db, text, 1000, 100).value
    ensures var n, cs := |Words(db, text)|, ChunksToSave(db, Some(text));
      && (|cs| - 1) * 900 < n <= |cs| * 900 && |cs| >= 2
      && k < |cs| && Words(db, cs[k]) == Window(Words(db, text), 1000, k * 900)
  {
    assert text != [];
    assert ChunksToSave(db, Some(text)) == SlidingChunks(db, text, 1000, 100).value;
    ChunkCount(db, text, 1000, 100);
    StepsBound(|Words(db, text)|, 900);
    ChunkAt(db, text, 1000, 100, k, k * 900);
  }

  // ---------------------------------------------------------------------
  // find_document_files

  /** What a listed path is on disk. */
  datatype Target = Missing | FileAt | DirAt(tree: DirNode) | Special

  datatype PathEntry = PathEntry(path: string, target: Target)

  /** `os.path.splitext(name)[1].lower() in VALID_DOCUMENT_EXTENSIONS`; the
      extensions are a parameter, as config.py does not define them. */
  predicate IsDocName(db: CharDb, docExts: set<string>, name: string)
  {
    Lower(db, SplitExt(name)) in docExts
  }

  const SkippedRootWords: seq<string> := ["$recycle", "system volume", "windows", "appdata"]

  /** A walked directory whose files are passed over: its lower-cased path
      holds one of the words above or a skip pattern. */
  predicate RootSkipped(db: CharDb, root: string)
  {
    var r := Lower(db, root);
    ContainsAny(r, SkippedRootWords) || HasSkipPattern(r)
  }

  /** `os.walk` here descends into every subdirectory. */
  function AllDirs(): (string, DirNode) -> bool
  {
    (p: string, c: DirNode) => true
  }

  /** The documents among the files listed at `root`, as joined paths. */
  function DocsIn(db: CharDb, docExts: set<string>, root: string, fs: seq<FileNode>): seq<string>
  {
    Filtered((f: FileNode) => IsDocName(db, docExts, f.name), (f: FileNode) => Join(root, f.name), fs)
  }

  function DocsAt(db: CharDb, docExts: set<string>, root: string, x: DirNode): seq<string>
  {
    if RootSkipped(db, root) then [] else DocsIn(db, docExts, root, x.files)
  }

  function DocOwn(db: CharDb, docExts: set<string>): (string, DirNode) -> seq<string>
  {
    (root: string, x: DirNode) => DocsAt(db, docExts, root, x)
  }

  /** The documents one listed path contributes. */
  function DocsOf(db: CharDb, docExts: set<string>, e: PathEntry): seq<string>
  {
    match e.target
    case Missing => []
    case Special => []
    case FileAt => if IsDocName(db, docExts, e.path) then [e.path] else []
    case DirAt(t) => TopDown(AllDirs(), DocOwn(db, docExts), e.path, t)
  }

  function DocsFn(db: CharDb, docExts: set<string>): PathEntry -> seq<string>
  {
    (e: PathEntry) => DocsOf(db, docExts, e)
  }

  /** find_document_files(paths): the documents of each listed path, in order. */
  function Documents(db: CharDb, docExts: set<string>, es: seq<PathEntry>): seq<string>
  {
    Flat(DocsFn(db, docExts), es)
  }

  method FindDocumentFiles(db: CharDb, docExts: set<string>, paths: seq<PathEntry>) returns (docs: seq<string>)
    ensures docs == Documents(db, docExts, paths)
  {
    docs := [];
    for k := 0 to |paths|
      invariant docs == Documents(db, docExts, paths[..k])
    {
      var e := paths[k];
      FlatSnoc(DocsFn(db, docExts), paths, k);
      match e.target {
        case Missing =>
        case Special =>
        case FileAt =>
          if IsDocName(db, docExts, e.path) {
            docs := docs + [e.path];
          }
        case DirAt(t) =>
          var found := WalkDocuments(db, docExts, e.path, t);
          docs := docs + found;
      }
    }
    assert paths[..|paths|] == paths;
  }

  /** The `os.walk` loop over one directory. */
  method WalkDocuments(db: CharDb, docExts: set<string>, top: string, tree: DirNode) returns (docs: seq<string>)
    ensures docs == TopDown(AllDirs(), DocOwn(db, docExts), top, tree)
  {
    docs := [];
    var stack := [Frame(top, tree)];
    assert Pending(AllDirs(), DocOwn(db, docExts), stack) == TopDown(AllDirs(), DocOwn(db, docExts), top, tree) + [];
    while stack != []
      invariant docs + Pending(AllDirs(), DocOwn(db, docExts), stack) == TopDown(AllDirs(), DocOwn(db, docExts), top, tree)
      decreases FramesSize(stack)
    {
      var root, dir := stack[0].path, stack[0].dir;
      var here: seq<string> := [];
      if !RootSkipped(db, root) {
        here := ScanDocuments(db, docExts, root, dir.files);
      }
      WalkStep(AllDirs(), DocOwn(db, docExts), stack);
      stack := KeptFrames(AllDirs(), root, dir.dirs) + stack[1..];
      ConcatAssoc(docs, here, Pending(AllDirs(), DocOwn(db, docExts), stack));
      docs := docs + here;
    }
  }

  /** The loop over `files` of a directory that is not skipped. */
  method ScanDocuments(db: CharDb, docExts: set<string>, root: string, files: seq<FileNode>) returns (found: seq<string>)
    ensures found == DocsIn(db, docExts, root, files)
  {
    found := [];
    for j := 0 to |files|
      invariant found == DocsIn(db, docExts, root, files[..j])
    {
      var f := files[j];
      FilteredSnoc((f: FileNode) => IsDocName(db, docExts, f.name), (f: FileNode) => Join(root, f.name), files, j);
      if IsDocName(db, docExts, f.name) {
        found := found + [Join(root, f.name)];
      }
    }
    assert files[..|files|] == files;
  }

  // ---------------------------------------------------------------------
  // What find_document_files finds

  /** The documents of the listed paths, path by path. */
  lemma DocumentsIff(db: CharDb, docExts: set<string>, es: seq<PathEntry>, q: string)
    ensures q in Documents(db, docExts, es) <==> exists k | 0 <= k < |es| :: q in DocsOf(db, docExts, es[k])
  {
    FlatIff(DocsFn(db, docExts), es, q);
    assert forall k | 0 <= k < |es| :: DocsFn(db, docExts)(es[k]) == DocsOf(db, docExts, es[k]);
  }

  /** A listed file is found iff its extension is a document extension;
      a missing path, or one neither a file nor a directory, gives nothing. */
  lemma DocsOfFile(db: CharDb, docExts: set<string>, e: PathEntry)
    requires !e.target.DirAt?
    ensures DocsOf(db, docExts, e) == if e.target == FileAt && IsDocName(db, docExts, e.path) then [e.path] else []
  {
  }

  /** Under a listed directory, a path is found iff it is found at some
      directory of the tree. */
  lemma DocsOfDirIff(db: CharDb, docExts: set<string>, path: string, t: DirNode, q: string)
    ensures q in DocsOf(db, docExts, PathEntry(path, DirAt(t))) <==>
      exists p, x :: Within(AllDirs(), path, t, p, x) && q in DocsAt(db, docExts, p, x)
  {
    var own := DocOwn(db, docExts);
    if q in TopDown(AllDirs(), own, path, t) {
      WalkSound(AllDirs(), own, path, t, q);
      var p, x :| Within(AllDirs(), path, t, p, x) && q in own(p, x);
      assert q in DocsAt(db, docExts, p, x);
    }
    if exists p, x :: Within(AllDirs(), path, t, p, x) && q in DocsAt(db, docExts, p, x) {
      var p, x :| Within(AllDirs(), path, t, p, x) && q in DocsAt(db, docExts, p, x);
      assert q in own(p, x);
      WalkComplete(AllDirs(), own, path, t, p, x, q);
    }
  }

  /** A path is found at a directory iff the directory's path is not
      skipped and the path joins it to one of its files with a document
      extension. */
  lemma DocsAtIff(db: CharDb, docExts: set<string>, root: string, x: DirNode, q: string)
    ensures q in DocsAt(db, docExts, root, x) <==>
      !RootSkipped(db, root) && exists i | 0 <= i < |x.files| :: IsDocName(db, docExts, x.files[i].name) && q == Join(root, x.files[i].name)
  {
    DocsInIff(db, docExts, root, x.files, q);
  }

  /** The documents listed at a directory: the joined paths of the files
      with a document extension. */
  lemma DocsInIff(db: CharDb, docExts: set<string>, root: string, fs: seq<FileNode>, q: string)
    ensures q in DocsIn(db, docExts, root, fs) <==>
      exists i | 0 <= i < |fs| :: IsDocName(db, docExts, fs[i].name) && q == Join(root, fs[i].name)
  {
    FilteredIff((f: FileNode) => IsDocName(db, docExts, f.name), (f: FileNode) => Join(root, f.name), fs, q);
  }

  /** Skipping a directory skips everything below it: its subdirectories'
      paths extend its own, so they hold the same skipped word. */
  lemma SkippedBelow(db: CharDb, root: string, name: string)
    requires RootSkipped(db, root) && ListedName(name)
    ensures RootSkipped(db, Join(root, name))
  {
    var rest := if root == [] || root[|root| - 1] == '/' then name else "/" + name;
    assert Join(root, name) == root + rest;
    LowerAppend(db, root, rest);
    var r := Lower(db, root);
    if ContainsAny(r, SkippedRootWords) {
      ContainsAnyAppend(r, Lower(db, rest), SkippedRootWords);
    } else {
      ContainsAnyAppend(r, Lower(db, rest), SkipPatterns);
    }
  }



  function SkippedFn(db: CharDb): string -> bool
  {
    (p: string) => RootSkipped(db, p)
  }

  /** Nothing is found under a skipped directory of a well-named tree. */
  lemma SkippedSubtreeEmpty(db: CharDb, docExts: set<string>, root: string, d: DirNode)
    requires RootSkipped(db, root) && WellNamed(d)
    ensures TopDown(AllDirs(), DocOwn(db, docExts), root, d) == []
  {
    var dead := SkippedFn(db);
    forall p, n | dead(p) && ListedName(n)
      ensures dead(Join(p, n))
    {
      SkippedBelow(db, p, n);
    }
    WalkSilent(AllDirs(), DocOwn(db, docExts), dead, root, d);
  }

  lemma BasenameOfListed(name: string)
    requires '/' !in name
    ensures Basename(name) == name
  {
    BasenameOfJoin("", name);
    assert Join("", name) == name;
  }

  /** A listed file keeps its extension when joined to its directory. */
  lemma DocNameOfJoin(db: CharDb, docExts: set<string>, root: string, name: string)
    requires '/' !in name
    ensures IsDocName(db, docExts, Join(root, name)) <==> IsDocName(db, docExts, name)
  {
    BasenameOfJoin(root, name);
    BasenameOfListed(name);
  }

  /** Everything found has a document extension. */
  lemma DocsOfSound(db: CharDb, docExts: set<string>, e: PathEntry, q: string)
    requires e.target.DirAt? ==> WellNamed(e.target.tree)
    requires q in DocsOf(db, docExts, e)
    ensures IsDocName(db, docExts, q)
  {
    match e.target
    case FileAt =>
      assert q == e.path;
    case DirAt(t) =>
      assert q in TopDown(AllDirs(), DocOwn(db, docExts), e.path, t);
      WalkedDocsSound(db, docExts, e.path, t, q);
  }

  lemma WalkedDocsSound(db: CharDb, docExts: set<string>, path: string, t: DirNode, q: string)
    requires WellNamed(t) && q in TopDown(AllDirs(), DocOwn(db, docExts), path, t)
    ensures IsDocName(db, docExts, q)
  {
    var own := DocOwn(db, docExts);
    WalkSound(AllDirs(), own, path, t, q);
    var p, x :| Within(AllDirs(), path, t, p, x) && q in own(p, x);
    WithinWellNamed(path, t, p, x);
    DocsAtSound(db, docExts, p, x, q);
  }

  lemma DocsAtSound(db: CharDb, docExts: set<string>, p: string, x: DirNode, q: string)
    requires WellNamed(x) && q in DocsAt(db, docExts, p, x)
    ensures IsDocName(db, docExts, q)
  {
    DocsAtIff(db, docExts, p, x, q);
    var i :| 0 <= i < |x.files| && IsDocName(db, docExts, x.files[i].name) && q == Join(p, x.files[i].name);
    assert ListedName(x.files[i].name);
    DocNameOfJoin(db, docExts, p, x.files[i].name);
  }

  /** The directories of a well-named tree are well named. */
  lemma {:induction false} WithinWellNamed(path: string, d: DirNode, p: string, x: DirNode)
    requires WellNamed(d) && Within(AllDirs(), path, d, p, x)
    ensures WellNamed(x)
    decreases d
  {
    if !(p == path && x == d) {
      var i :| 0 <= i < |d.dirs| && AllDirs()(Join(path, d.dirs[i].name), d.dirs[i])
        && Within(AllDirs(), Join(path, d.dirs[i].name), d.dirs[i], p, x);
      assert WellNamedBelow(d, i);
      WithinWellNamed(Join(path, d.dirs[i].name), d.dirs[i], p, x);
    }
  }

  // ---------------------------------------------------------------------
  // index_documents

  /** The dictionary index_documents returns, without its message. */
  datatype DocResult = DocResult(status: string, count: nat)

  /** One progress_callback(stage, current, total, message) call, without
      its message. */
  datatype Progress = Progress(stage: string, current: int, total: int)

  /** The indexing calls after the first `i` documents of `n`. */
  function Ticks(i: nat, n: nat): seq<Progress>
  {
    if i == 0 then [] else Ticks(i - 1, n) + [Progress("indexing", i, n)]
  }

  /** The calls of a run that finds `n > 0` documents. */
  function RunProgress(n: nat): seq<Progress>
  {
    [Progress("scanning", 0, 1), Progress("indexing", 0, n)] + Ticks(n, n) + [Progress("complete", n, n)]
  }

  /** The chunks stored for each document, in order. */
  function Saves(db: CharDb, extract: string -> Option<string>, docs: seq<string>): seq<seq<string>>
  {
    if docs == [] then [] else Saves(db, extract, docs[..|docs| - 1]) + [ChunksToSave(db, extract(docs[|docs| - 1]))]
  }

  /** index_documents(path_list). `storeOk` says whether the embeddings
      store can be created; where it cannot, init_db raises and the run ends
      in the handler. `extract` gives what extract_text returns for a
      document. The chunks handed to the store are returned, one list per
      document, as `saved`. */
  method IndexDocuments(db: CharDb, docExts: set<string>, pathList: Option<seq<PathEntry>>, storeOk: bool,
                        extract: string -> Option<string>)
    returns (r: DocResult, progress: seq<Progress>, saved: seq<seq<string>>)
    ensures pathList == None || pathList == Some([]) ==> r == DocResult("error", 0) && progress == [] && saved == []
    ensures pathList.Some? && pathList.value != [] && !storeOk ==>
      r == DocResult("error", 0) && progress == [Progress("error", 0, 0)] && saved == []
    ensures pathList.Some? && pathList.value != [] && storeOk ==>
      var docs := Documents(db, docExts, pathList.value);
      if docs == [] then
        r == DocResult("warning", 0) && progress == [Progress("scanning", 0, 1)] && saved == []
      else
        && r == DocResult("success", |docs|) && progress == RunProgress(|docs|)
        && saved == Saves(db, extract, docs)
  {
    saved := [];
    if pathList == None || pathList == Some([]) {
      return DocResult("error", 0), [], [];
    }
    if !storeOk {
      return DocResult("error", 0), [Progress("error", 0, 0)], [];
    }
    progress := [Progress("scanning", 0, 1)];
    var documents := FindDocumentFiles(db, docExts, pathList.value);
    if |documents| == 0 {
      return DocResult("warning", 0), progress, [];
    }
    var n := |documents|;
    var ticks;
    ticks, saved := IndexEach(db, extract, documents);
    progress := [Progress("scanning", 0, 1), Progress("indexing", 0, n)] + ticks + [Progress("complete", n, n)];
    r := DocResult("success", n);
  }

  /** The loop of index_documents over the documents found: chunk_and_save,
      then one progress call, per document. */
  method IndexEach(db: CharDb, extract: string -> Option<string>, documents: seq<string>)
    returns (ticks: seq<Progress>, saved: seq<seq<string>>)
    ensures ticks == Ticks(|documents|, |documents|)
    ensures saved == Saves(db, extract, documents)
  {
    var n := |documents|;
    ticks, saved := [], [];
    for idx := 0 to n
      invariant ticks == Ticks(idx, n)
      invariant saved == Saves(db, extract, documents[..idx])
    {
      assert documents[..idx + 1][..idx] == documents[..idx];
      saved := saved + [ChunksToSave(db, extract(documents[idx]))];
      ticks := ticks + [Progress("indexing", idx + 1, n)];
    }
    assert documents[..n] == documents;
  }

  /** One list of chunks per document, each the one chunk_and_save stores
      for it. */
  lemma {:induction false} SavesAt(db: CharDb, extract: string -> Option<string>, docs: seq<string>)
    ensures |Saves(db, extract, docs)| == |docs|
    ensures forall k | 0 <= k < |docs| :: Saves(db, extract, docs)[k] == ChunksToSave(db, extract(docs[k]))
  {
    if docs != [] {
      var init := docs[..|docs| - 1];
      SavesAt(db, extract, init);
      assert forall k | 0 <= k < |init| :: init[k] == docs[k];
    }
  }

  /** The indexing calls count the documents 1 to `i`. */
  lemma {:induction false} TicksAt(i: nat, n: nat)
    ensures |Ticks(i, n)| == i
    ensures forall j | 0 <= j < i :: Ticks(i, n)[j] == Progress("indexing", j + 1, n)
  {
    if i > 0 {
      TicksAt(i - 1, n);
    }
  }

  /** The stages run in order: one scanning call, n + 1 indexing calls
      counting 0 to n, one complete call. */
  lemma RunProgressShape(n: nat)
    ensures |RunProgress(n)| == n + 3
    ensures RunProgress(n)[0] == Progress("scanning", 0, 1)
    ensures forall j | 1 <= j <= n + 1 :: RunProgress(n)[j] == Progress("indexing", j - 1, n)
    ensures RunProgress(n)[n + 2] == Progress("complete", n, n)
  {
    TicksAt(n, n);
  }
}
