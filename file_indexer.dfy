/** indexing/file_indexer.py: the walk that collects every file and folder
    under a root, and the full indexing run built on it. */
module FileIndexer {
  import opened Wrappers
  import opened PyString
  import opened PyPath
  import opened Config
  import opened Helpers
  import opened DataModels
  import opened FileSearch
  import opened DirTree
  import AutoIndex

  // ---------------------------------------------------------------------
  // The rules of collect_entries

  /** A subdirectory at `path` is recorded and walked: its lower-cased name
      holds no skip pattern, it is not hidden, not in SKIP_FOLDERS, and it is
      accessible (lines 22-26). */
  predicate KeepDir(db: CharDb, platform: Platform, path: string, d: DirNode)
  {
    var name := Lower(db, d.name);
    !HasSkipPattern(name) && !(IsHidden(platform, path, d.attrHidden) || name in SkipFolders || !d.accessible)
  }

  /** A file at `path` is recorded: it is not hidden, its lower-cased name is
      not in SKIP_FILES, and it is accessible (line 37). */
  predicate KeepFile(db: CharDb, platform: Platform, path: string, f: FileNode)
  {
    !(IsHidden(platform, path, f.attrHidden) || Lower(db, f.name) in SkipFiles || !f.accessible)
  }

  /** `os.path.splitext(f)[1].lower().strip('.') or 'unknown'`. */
  function FileKind(db: CharDb, name: string): (k: string)
    ensures k != []
  {
    var e := StripChar(Lower(db, SplitExt(name)), '.');
    if e != [] then e else "unknown"
  }

  function FolderRecord(root: string, d: DirNode): FileData
  {
    NewFileData(d.name, Join(root, d.name), "folder")
  }

  function FileRecord(db: CharDb, root: string, f: FileNode): FileData
  {
    NewFileData(f.name, Join(root, f.name), FileKind(db, f.name))
  }

  /** The rule collect_entries walks by. */
  function DirKeep(db: CharDb, platform: Platform): (string, DirNode) -> bool
  {
    (p: string, c: DirNode) => KeepDir(db, platform, p, c)
  }

  /** The records one round of the walk appends for the directory `x` at
      `root`: the folder loop's, then the file loop's. */
  function Own(db: CharDb, platform: Platform): (string, DirNode) -> seq<FileData>
  {
    (root: string, x: DirNode) => OwnRecords(db, platform, root, x)
  }

  function OwnRecords(db: CharDb, platform: Platform, root: string, x: DirNode): seq<FileData>
  {
    FolderRecords(db, platform, root, x.dirs) + FileRecords(db, platform, root, x.files)
  }

  /** The folder records the loop over `dirs` appends. */
  function FolderRecords(db: CharDb, platform: Platform, root: string, ds: seq<DirNode>): seq<FileData>
  {
    Filtered((c: DirNode) => KeepDir(db, platform, Join(root, c.name), c), (c: DirNode) => FolderRecord(root, c), ds)
  }

  /** The file records the loop over `files` appends. */
  function FileRecords(db: CharDb, platform: Platform, root: string, fs: seq<FileNode>): seq<FileData>
  {
    Filtered((f: FileNode) => KeepFile(db, platform, Join(root, f.name), f), (f: FileNode) => FileRecord(db, root, f), fs)
  }

  /** collect_entries on the tree `d` at `path`, in the order of a top-down
      walk: the directory's kept subdirectories, its kept files, then the
      walks of the kept subdirectories, one after another. */
  function Collected(db: CharDb, platform: Platform, path: string, d: DirNode): seq<FileData>
  {
    TopDown(DirKeep(db, platform), Own(db, platform), path, d)
  }

  // ---------------------------------------------------------------------
  // collect_entries

  /** collect_entries(root_dir). The walk keeps its directories still to be
      visited in `stack`, next one first; the assignment `dirs[:] =
      allowed_dirs` is what puts only the allowed subdirectories there. A
      root that cannot be listed is a tree with empty listings. */
  method CollectEntries(db: CharDb, platform: Platform, rootDir: string, top: DirNode) returns (fileList: seq<FileData>)
    ensures fileList == Collected(db, platform, rootDir, top)
  {
    fileList := [];
    var stack := [Frame(rootDir, top)];
    assert Pending(DirKeep(db, platform), Own(db, platform), stack) == Collected(db, platform, rootDir, top) + [];
    while stack != []
      invariant fileList + Pending(DirKeep(db, platform), Own(db, platform), stack) == Collected(db, platform, rootDir, top)
      decreases FramesSize(stack)
    {
      fileList, stack := Visit(db, platform, fileList, stack);
    }
  }

  /** One round of the walk: the listing of the next directory is scanned
      and it is replaced by its allowed subdirectories. */
  method Visit(db: CharDb, platform: Platform, fileList: seq<FileData>, stack: seq<Frame>)
    returns (fileList': seq<FileData>, stack': seq<Frame>)
    requires stack != []
    ensures fileList' + Pending(DirKeep(db, platform), Own(db, platform), stack')
         == fileList + Pending(DirKeep(db, platform), Own(db, platform), stack)
    ensures FramesSize(stack') < FramesSize(stack)
  {
    var root, dir := stack[0].path, stack[0].dir;
    var allowed;
    fileList', allowed := ScanDirs(db, platform, fileList, root, dir.dirs);
    fileList' := ScanFiles(db, platform, fileList', root, dir.files);
    WalkStep(DirKeep(db, platform), Own(db, platform), stack);
    stack' := allowed + stack[1..];
    ConcatShift(fileList, FolderRecords(db, platform, root, dir.dirs), FileRecords(db, platform, root, dir.files),
      Pending(DirKeep(db, platform), Own(db, platform), stack'));
  }

  lemma ConcatShift<T>(a: seq<T>, b: seq<T>, c: seq<T>, d: seq<T>)
    ensures a + b + c + d == a + (b + c + d)
  {
  }

  /** The loop over `dirs`: a folder record for each allowed subdirectory,
      and `allowed_dirs`. */
  method ScanDirs(db: CharDb, platform: Platform, fileList: seq<FileData>, root: string, dirs: seq<DirNode>)
    returns (fileList': seq<FileData>, allowed: seq<Frame>)
    ensures fileList' == fileList + FolderRecords(db, platform, root, dirs)
    ensures allowed == KeptFrames(DirKeep(db, platform), root, dirs)
  {
    fileList' := fileList;
    allowed := [];
    var j := 0;
    while j < |dirs|
      invariant 0 <= j <= |dirs|
      invariant fileList' == fileList + FolderRecords(db, platform, root, dirs[..j])
      invariant allowed == KeptFrames(DirKeep(db, platform), root, dirs[..j])
    {
      var d := dirs[j];
      var fullD := Join(root, d.name);
      FolderStep(db, platform, root, dirs, j);
      if KeepDir(db, platform, fullD, d) {
        ConcatAssoc(fileList, FolderRecords(db, platform, root, dirs[..j]), [FolderRecord(root, d)]);
        allowed := allowed + [Frame(fullD, d)];
        fileList' := fileList' + [FolderRecord(root, d)];
      }
      j := j + 1;
    }
    assert dirs[..j] == dirs;
  }

  /** The loop over `files`: a record for each file kept. */
  method ScanFiles(db: CharDb, platform: Platform, fileList: seq<FileData>, root: string, files: seq<FileNode>)
    returns (fileList': seq<FileData>)
    ensures fileList' == fileList + FileRecords(db, platform, root, files)
  {
    fileList' := fileList;
    var j := 0;
    while j < |files|
      invariant 0 <= j <= |files|
      invariant fileList' == fileList + FileRecords(db, platform, root, files[..j])
    {
      var f := files[j];
      FileStep(db, platform, root, files, j);
      if KeepFile(db, platform, Join(root, f.name), f) {
        ConcatAssoc(fileList, FileRecords(db, platform, root, files[..j]), [FileRecord(db, root, f)]);
        fileList' := fileList' + [FileRecord(db, root, f)];
      }
      j := j + 1;
    }
    assert files[..j] == files;
  }

  lemma FolderStep(db: CharDb, platform: Platform, root: string, ds: seq<DirNode>, j: nat)
    requires j < |ds|
    ensures var c := ds[j]; var keep := KeepDir(db, platform, Join(root, c.name), c);
      && FolderRecords(db, platform, root, ds[..j + 1])
           == FolderRecords(db, platform, root, ds[..j]) + (if keep then [FolderRecord(root, c)] else [])
      && KeptFrames(DirKeep(db, platform), root, ds[..j + 1])
           == KeptFrames(DirKeep(db, platform), root, ds[..j]) + (if keep then [Frame(Join(root, c.name), c)] else [])
  {
    FilteredSnoc((c: DirNode) => KeepDir(db, platform, Join(root, c.name), c), (c: DirNode) => FolderRecord(root, c), ds, j);
    KeptFramesStep(DirKeep(db, platform), root, ds, j);
  }

  lemma FileStep(db: CharDb, platform: Platform, root: string, fs: seq<FileNode>, j: nat)
    requires j < |fs|
    ensures FileRecords(db, platform, root, fs[..j + 1]) == FileRecords(db, platform, root, fs[..j])
      + (if KeepFile(db, platform, Join(root, fs[j].name), fs[j]) then [FileRecord(db, root, fs[j])] else [])
  {
    FilteredSnoc((f: FileNode) => KeepFile(db, platform, Join(root, f.name), f), (f: FileNode) => FileRecord(db, root, f), fs, j);
  }

  // ---------------------------------------------------------------------
  // What collect_entries records

  /** A record of the folder loop is the folder record of a subdirectory the
      rules keep, and each kept subdirectory has one. */
  lemma FolderRecordsIff(db: CharDb, platform: Platform, root: string, ds: seq<DirNode>, g: FileData)
    ensures g in FolderRecords(db, platform, root, ds) <==>
      exists i | 0 <= i < |ds| :: KeepDir(db, platform, Join(root, ds[i].name), ds[i]) && g == FolderRecord(root, ds[i])
  {
    FilteredIff((c: DirNode) => KeepDir(db, platform, Join(root, c.name), c), (c: DirNode) => FolderRecord(root, c), ds, g);
  }

  /** A record of the file loop is the record of a file the rules keep, and
      each kept file has one; the skip patterns play no part. */
  lemma FileRecordsIff(db: CharDb, platform: Platform, root: string, fs: seq<FileNode>, g: FileData)
    ensures g in FileRecords(db, platform, root, fs) <==>
      exists i | 0 <= i < |fs| :: KeepFile(db, platform, Join(root, fs[i].name), fs[i]) && g == FileRecord(db, root, fs[i])
  {
    FilteredIff((f: FileNode) => KeepFile(db, platform, Join(root, f.name), f), (f: FileNode) => FileRecord(db, root, f), fs, g);
  }

  /** Pruning: a record collected under a directory is one of its own
      folder or file records, or was collected under one of the
      subdirectories the rules keep. Nothing below a pruned subdirectory is
      collected. */
  lemma CollectedFrom(db: CharDb, platform: Platform, path: string, d: DirNode, g: FileData)
    requires g in Collected(db, platform, path, d)
    ensures || g in FolderRecords(db, platform, path, d.dirs)
            || g in FileRecords(db, platform, path, d.files)
            || exists i | 0 <= i < |d.dirs| ::
                 KeepDir(db, platform, Join(path, d.dirs[i].name), d.dirs[i])
                 && g in Collected(db, platform, Join(path, d.dirs[i].name), d.dirs[i])
  {
    WalkFrom(DirKeep(db, platform), Own(db, platform), path, d, g);
  }

  predicate HasName(g: FileData) { g.fileName != [] }

  /** collect_entries records exactly the folder and file records made at
      the directories it visits, those reached through kept subdirectories
      only. */
  lemma CollectedIff(db: CharDb, platform: Platform, path: string, d: DirNode, g: FileData)
    ensures g in Collected(db, platform, path, d) <==>
      exists p, x :: Within(DirKeep(db, platform), path, d, p, x) && g in OwnRecords(db, platform, p, x)
  {
    if g in Collected(db, platform, path, d) {
      WalkSound(DirKeep(db, platform), Own(db, platform), path, d, g);
    }
    if exists p, x :: Within(DirKeep(db, platform), path, d, p, x) && g in OwnRecords(db, platform, p, x) {
      var p, x :| Within(DirKeep(db, platform), path, d, p, x) && g in OwnRecords(db, platform, p, x);
      WalkComplete(DirKeep(db, platform), Own(db, platform), path, d, p, x, g);
    }
  }

  /** Every record made at a directory of a well-named tree has a
      non-empty name. */
  lemma {:induction false} OwnNamed(db: CharDb, platform: Platform, path: string, d: DirNode)
    requires WellNamed(d)
    ensures OwnAll(Own(db, platform), HasName, path, d)
    decreases d, |d.dirs| + 1
  {
    forall i | 0 <= i < |d.dirs| ensures d.dirs[i].name != [] {
      assert WellNamedBelow(d, i);
      assert WellNamed(d.dirs[i]);
    }
    OwnRecordsNamed(db, platform, path, d);
    forall i | 0 <= i < |d.dirs| ensures OwnAllBelow(Own(db, platform), HasName, path, d, i) {
      assert WellNamedBelow(d, i);
      OwnNamed(db, platform, Join(path, d.dirs[i].name), d.dirs[i]);
    }
  }

  lemma OwnRecordsNamed(db: CharDb, platform: Platform, path: string, d: DirNode)
    requires forall i | 0 <= i < |d.dirs| :: d.dirs[i].name != []
    requires forall i | 0 <= i < |d.files| :: d.files[i].name != []
    ensures forall g | g in Own(db, platform)(path, d) :: g.fileName != []
  {
    var folders, files := FolderRecords(db, platform, path, d.dirs), FileRecords(db, platform, path, d.files);
    forall g | g in folders ensures g.fileName != [] {
      FolderRecordsIff(db, platform, path, d.dirs, g);
    }
    forall g | g in files ensures g.fileName != [] {
      FileRecordsIff(db, platform, path, d.files, g);
    }
    assert Own(db, platform)(path, d) == folders + files;
  }

  /** Every record collected from a well-named tree has a non-empty name. */
  lemma CollectedNamed(db: CharDb, platform: Platform, path: string, d: DirNode)
    requires WellNamed(d)
    ensures forall g | g in Collected(db, platform, path, d) :: g.fileName != []
  {
    OwnNamed(db, platform, path, d);
    WalkAll(DirKeep(db, platform), Own(db, platform), HasName, path, d);
  }

  /** The recorded type of a file with an ASCII name and an extension: the
      extension lower-cased, without its dot; "unknown" without one. */
  lemma FileKindOfAscii(db: CharDb, name: string, e: string)
    requires ValidDb(db) && AllAscii(name) && SplitExt(name) == "." + e && e != []
    ensures FileKind(db, name) == AsciiLowerStr(e)
  {
    AutoIndex.AutoKindOfAscii(db, name, e);
  }

  lemma FileKindWithoutExtension(db: CharDb, name: string)
    requires SplitExt(name) == ""
    ensures FileKind(db, name) == "unknown"
  {
  }

  /** For a name ending in a dot, such as "notes.", collect_entries records
      the type "unknown" and auto_index the empty type. */
  lemma TrailingDotKinds(db: CharDb)
    requires ValidDb(db)
    ensures FileKind(db, "a.") == "unknown" && AutoIndex.AutoKind(db, false, "a.") == ""
  {
    var n := "a.";
    assert PyPath.LastIndex(n, '/') == -1;
    assert Basename(n) == n;
    assert PyPath.LastIndex(n, '.') == 1;
    assert SplitExt(n) == ".";
    LowerOfAscii(db, ".");
    assert AsciiLowerStr(".") == ".";
    assert StripChar(".", '.') == "";
  }

  /** The skip patterns are applied to folders only: a visible, accessible
      file named "tmp" is collected, although auto_index skips it. */
  lemma TmpFileIsCollected(db: CharDb)
    requires ValidDb(db)
    ensures KeepFile(db, Posix, Join("/", "tmp"), FileNode("tmp", false, true))
    ensures AutoIndex.ShouldSkip(db, Posix, Join("/", "tmp"), false, false, true)
  {
    assert Join("/", "tmp") == "/tmp";
    var p := "/tmp";
    assert Basename(p) == "tmp" by {
      assert p[0] == '/' && p[1] != '/' && p[2] != '/' && p[3] != '/';
      assert PyPath.LastIndex(p, '/') == 0;
      assert p[1..] == "tmp";
    }
    LowerOfAscii(db, "tmp");
    assert AsciiLowerStr("tmp") == "tmp";
    AutoIndex.ShouldSkipTmpFile(db);
  }

  // ---------------------------------------------------------------------
  // index_files

  /** The dictionary index_files returns, without its message. */
  datatype IndexResult = IndexResult(status: string, count: nat)

  /** index_files(root_dir): collect, build the trees, save them and clear
      them. Where build_trees raises (a record with an empty name) the result
      is an error with count 0, and the records before it stay inserted. On
      success the count is the number of records collected, those build_trees
      passes over included. */
  method IndexFiles(reg: Registry, platform: Platform, rootDir: string, top: DirNode) returns (r: IndexResult)
    requires reg.Valid()
    modifies reg
    ensures reg.Valid()
    ensures var entries := Collected(reg.db, platform, rootDir, top);
      var built := InsertAll(old(reg.trees), entries[..FirstEmpty(entries)]);
      if FirstEmpty(entries) == |entries| then
        && r == IndexResult("success", |entries|)
        && reg.disk == Saved(built, old(reg.disk)) && reg.trees == Cleared(built) && reg.loaded == {}
      else
        && r == IndexResult("error", 0)
        && reg.trees == built && reg.disk == old(reg.disk) && reg.loaded == old(reg.loaded)
  {
    var entries := CollectEntries(reg.db, platform, rootDir, top);
    var total := |entries|;
    var ok, _ := reg.BuildTrees(entries);
    if !ok {
      return IndexResult("error", 0);
    }
    assert entries[..FirstEmpty(entries)] == entries;
    reg.SaveTrees();
    reg.ClearTrees();
    r := IndexResult("success", total);
  }

  /** On a real listing the run succeeds, and afterwards every root of the
      registry is an empty node again. */
  lemma IndexFilesSucceeds(db: CharDb, platform: Platform, rootDir: string, top: DirNode)
    requires WellNamed(top)
    ensures FirstEmpty(Collected(db, platform, rootDir, top)) == |Collected(db, platform, rootDir, top)|
  {
    CollectedNamed(db, platform, rootDir, top);
  }
}
