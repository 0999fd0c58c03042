/** search/file_search.py, second half: the flat prefix index kept in SQLite.
    The table `file_index` is a map from row key (`prefix`) to a row holding
    the extension and category of the first record stored under that key and
    the JSON array `files_json` of the records stored since. */
module SearchIndex {
  import opened Wrappers
  import opened PyString
  import opened Config
  import opened Helpers
  import opened DataModels

  // ---------------------------------------------------------------------
  // get_file_category

  const ImageTypes: seq<string> := ["png", "jpg", "jpeg", "gif", "bmp", "webp", "image"]
  const VideoTypes: seq<string> := ["mp4", "mkv", "mov", "avi", "video"]
  const AudioTypes: seq<string> := ["mp3", "wav", "flac", "m4a", "audio"]
  const ArchiveTypes: seq<string> := ["zip", "7z", "rar", "tar", "gz"]
  const DocumentTypes: seq<string> := ["pdf", "ppt", "pptx", "xls", "xlsx", "csv", "md", "txt", "rtf", "doc", "docx"]

  /** The categories the user interface filters by. */
  predicate IsCategory(c: string)
  {
    c == "image" || c == "video" || c == "audio" || c == "archive" || c == "document" || c == "folder" || c == "file"
  }

  /** The category of an already lower-cased type: the first table that lists it. */
  function CategoryOf(t: string): (c: string)
    ensures IsCategory(c)
  {
    if t == "folder" then "folder"
    else if t in ImageTypes then "image"
    else if t in VideoTypes then "video"
    else if t in AudioTypes then "audio"
    else if t in ArchiveTypes then "archive"
    else if t in DocumentTypes then "document"
    else "file"
  }

  /** get_file_category(file_type): the type is lower-cased first; "" stands
      for both None and the empty string, which `or ''` treats alike. */
  function GetFileCategory(db: CharDb, fileType: string): (c: string)
    ensures IsCategory(c)
  {
    CategoryOf(Lower(db, fileType))
  }

  /** The tables do not overlap, so each category is chosen exactly by its own
      table, and "file" exactly by the types no table lists. */
  lemma CategoryOfIff(t: string)
    ensures CategoryOf(t) == "folder" <==> t == "folder"
    ensures CategoryOf(t) == "image" <==> t in ImageTypes
    ensures CategoryOf(t) == "video" <==> t in VideoTypes
    ensures CategoryOf(t) == "audio" <==> t in AudioTypes
    ensures CategoryOf(t) == "archive" <==> t in ArchiveTypes
    ensures CategoryOf(t) == "document" <==> t in DocumentTypes
    ensures CategoryOf(t) == "file" <==>
      t != "folder" && t !in ImageTypes && t !in VideoTypes && t !in AudioTypes && t !in ArchiveTypes && t !in DocumentTypes
  {
    if t in ImageTypes { ImageTypesAreOnlyImages(t); }
    if t in VideoTypes { VideoTypesAreOnlyVideos(t); }
    if t in AudioTypes { AudioTypesAreOnlySounds(t); }
    if t in ArchiveTypes { ArchiveTypesAreOnlyArchives(t); }
  }

  lemma ImageTypesAreOnlyImages(t: string)
    requires t in ImageTypes
    ensures t != "folder" && t !in VideoTypes && t !in AudioTypes && t !in ArchiveTypes && t !in DocumentTypes
  {
  }

  lemma VideoTypesAreOnlyVideos(t: string)
    requires t in VideoTypes
    ensures t != "folder" && t !in AudioTypes && t !in ArchiveTypes && t !in DocumentTypes
  {
  }

  lemma AudioTypesAreOnlySounds(t: string)
    requires t in AudioTypes
    ensures t != "folder" && t !in ArchiveTypes && t !in DocumentTypes
  {
  }

  lemma ArchiveTypesAreOnlyArchives(t: string)
    requires t in ArchiveTypes
    ensures t != "folder" && t !in DocumentTypes
  {
  }

  /** For ASCII types the category ignores letter case. */
  lemma GetFileCategoryIgnoresCase(db: CharDb, s: string, t: string)
    requires ValidDb(db) && AllAscii(s) && AllAscii(t) && AsciiLowerStr(s) == AsciiLowerStr(t)
    ensures GetFileCategory(db, s) == GetFileCategory(db, t)
  {
    LowerOfAscii(db, s);
    LowerOfAscii(db, t);
  }

  /** A type is put in the "file" category exactly when its lower-cased form
      is in no table. */
  lemma GetFileCategoryDefault(db: CharDb, s: string)
    ensures GetFileCategory(db, s) == "file" <==>
      var t := Lower(db, s);
      t != "folder" && t !in ImageTypes && t !in VideoTypes && t !in AudioTypes && t !in ArchiveTypes && t !in DocumentTypes
  {
    CategoryOfIff(Lower(db, s));
  }

  // ---------------------------------------------------------------------
  // Row keys

  /** The row key loop of build_search_index, search_db and
      search_db_startswith: get_value on each character of `s.lower()`,
      joined; None where get_value raises. */
  method NormaliseKey(db: CharDb, s: string) returns (r: Option<string>)
    ensures r == NameKey(db, s)
  {
    var t := Lower(db, s);
    var acc := "";
    var i := 0;
    while i < |t|
      invariant 0 <= i <= |t|
      invariant KeyOf(db, t[..i]) == Some(acc)
    {
      var v := GetValue(db, [t[i]]);
      KeyOfSnoc(db, t[..i], t[i]);
      assert t[..i + 1] == t[..i] + [t[i]];
      if v.None? {
        KeyOfAppend(db, t[..i + 1], t[i + 1..]);
        assert t[..i + 1] + t[i + 1..] == t;
        return None;
      }
      acc := acc + v.value;
      i := i + 1;
    }
    assert t[..i] == t;
    r := Some(acc);
  }

  lemma KeyOfSnoc(db: CharDb, s: string, c: char)
    ensures KeyOf(db, s + [c]) ==
      if KeyOf(db, s).Some? && GetValue(db, [c]).Some? then Some(KeyOf(db, s).value + GetValue(db, [c]).value) else None
  {
    KeyOfAppend(db, s, [c]);
    assert [c][1..] == [];
    assert KeyOf(db, [c][1..]) == Some("");
    if GetValue(db, [c]).Some? {
      var k := GetValue(db, [c]).value;
      assert k + "" == k;
      assert KeyOf(db, [c]) == Some(k);
    }
  }

  /** Row keys of accepted names hold neither of LIKE's wildcards '%' and '_',
      so `prefix LIKE key || '%'` is a plain starts-with test on them. */
  lemma {:induction false} KeyHasNoWildcard(s: string)
    requires CheckLetters(s)
    ensures '%' !in Concat(KeySeq(s)) && '_' !in Concat(KeySeq(s))
  {
    if s != [] {
      var c := s[0];
      SymbolKey(c);
      DigitKey(c);
      assert KeySeq(s) == [CharKey(c)] + KeySeq(s[1..]);
      assert Concat(KeySeq(s)) == CharKey(c) + Concat(KeySeq(s[1..]));
      KeyHasNoWildcard(s[1..]);
      if IsAsciiDigit(c) {
        assert CharKey(c) == "num" + [c];
      } else if !IsAsciiLetter(c) {
        assert IsLetterName(CharKey(c));
      }
    }
  }

  // ---------------------------------------------------------------------
  // Rows and upserts

  /** One element of a row's `files_json` array. */
  datatype Elem =
    | Rec(rec: FileData)          // a record's dict
    | Nest(recs: seq<FileData>)   // an array of record dicts
    | Str(of: FileData)           // a JSON string holding the text of a record's dict

  /** One row of `file_index`: `file_extension`, `file_category`, `files_json`. */
  datatype Row = Row(ext: string, cat: string, elems: seq<Elem>)

  /** The parameters of one upsert: key, extension, category and the record. */
  datatype Entry = Entry(key: string, ext: string, cat: string, rec: FileData)

  /** `INSERT ... VALUES (key, ext, cat, [first]) ON CONFLICT(prefix) DO UPDATE
      SET files_json = json_insert(files_json, '$[#]', more)`: a new key gets a
      row of its own, an existing one only gains `more` at the end. */
  function Upsert(rows: map<string, Row>, e: Entry, first: Elem, more: Elem): map<string, Row>
  {
    if e.key in rows then rows[e.key := rows[e.key].(elems := rows[e.key].elems + [more])]
    else rows[e.key := Row(e.ext, e.cat, [first])]
  }

  /** The upsert of build_search_index. Its parameter is `json.dumps([rec])`
      in both places, so a new row holds `[rec]` and a conflict appends the
      one-element array `[rec]` as a single nested element. */
  function IndexUpsert(rows: map<string, Row>, e: Entry): map<string, Row>
  {
    Upsert(rows, e, Rec(e.rec), Nest([e.rec]))
  }

  /** `cursor.executemany` of that upsert: the entries in order. */
  function UpsertAll(rows: map<string, Row>, es: seq<Entry>): map<string, Row>
  {
    if es == [] then rows else IndexUpsert(UpsertAll(rows, es[..|es| - 1]), es[|es| - 1])
  }

  /** The entries of `es` stored under key `k`, in order. */
  function WithKey(es: seq<Entry>, k: string): (r: seq<Entry>)
    ensures forall i | 0 <= i < |r| :: r[i].key == k
  {
    if es == [] then []
    else WithKey(es[..|es| - 1], k) + (if es[|es| - 1].key == k then [es[|es| - 1]] else [])
  }

  /** The nested elements conflicts append for the entries `es`. */
  function Nests(es: seq<Entry>): (r: seq<Elem>)
    ensures |r| == |es| && forall i | 0 <= i < |es| :: r[i] == Nest([es[i].rec])
  {
    seq(|es|, i requires 0 <= i < |es| => Nest([es[i].rec]))
  }

  /** The record of each entry. */
  function Recs(es: seq<Entry>): (r: seq<FileData>)
    ensures |r| == |es| && forall i | 0 <= i < |es| :: r[i] == es[i].rec
  {
    seq(|es|, i requires 0 <= i < |es| => es[i].rec)
  }

  /** Running one batch after another leaves the rows that running all the
      statements in one go leaves, so batching does not change the store. */
  lemma {:induction false} UpsertAllAppend(rows: map<string, Row>, a: seq<Entry>, b: seq<Entry>)
    ensures UpsertAll(rows, a + b) == UpsertAll(UpsertAll(rows, a), b)
    decreases |b|
  {
    if b == [] {
      assert a + b == a;
    } else {
      assert (a + b)[..|a + b| - 1] == a + b[..|b| - 1];
      UpsertAllAppend(rows, a, b[..|b| - 1]);
    }
  }

  /** What the upserts of `es` leave under each key: an existing row keeps its
      extension and category and gains one nested element per entry with its
      key; a new key's row takes extension and category from its first entry,
      holds that entry's record and then one nested element per later entry;
      no other key appears. */
  lemma {:induction false} RowOfUpsertAll(rows: map<string, Row>, es: seq<Entry>, k: string)
    ensures k in UpsertAll(rows, es) <==> k in rows || WithKey(es, k) != []
    ensures k in rows ==> UpsertAll(rows, es)[k] == rows[k].(elems := rows[k].elems + Nests(WithKey(es, k)))
    ensures k !in rows && WithKey(es, k) != [] ==>
      var w := WithKey(es, k);
      UpsertAll(rows, es)[k] == Row(w[0].ext, w[0].cat, [Rec(w[0].rec)] + Nests(w[1..]))
  {
    if es != [] {
      var init, e := es[..|es| - 1], es[|es| - 1];
      RowOfUpsertAll(rows, init, k);
      var r0, w0 := UpsertAll(rows, init), WithKey(init, k);
      assert UpsertAll(rows, es) == IndexUpsert(r0, e);
      if e.key == k {
        assert WithKey(es, k) == w0 + [e];
        RowOfUpsertSameKey(rows, r0, w0, e);
      } else {
        assert WithKey(es, k) == w0;
      }
    }
  }

  /** The step of RowOfUpsertAll for an entry with the key in question. */
  lemma RowOfUpsertSameKey(rows: map<string, Row>, r0: map<string, Row>, w0: seq<Entry>, e: Entry)
    requires e.key in r0 <==> e.key in rows || w0 != []
    requires e.key in rows ==> r0[e.key] == rows[e.key].(elems := rows[e.key].elems + Nests(w0))
    requires e.key !in rows && w0 != [] ==> r0[e.key] == Row(w0[0].ext, w0[0].cat, [Rec(w0[0].rec)] + Nests(w0[1..]))
    ensures var r, w, k := IndexUpsert(r0, e), w0 + [e], e.key;
      && (k in rows ==> r[k] == rows[k].(elems := rows[k].elems + Nests(w)))
      && (k !in rows ==> r[k] == Row(w[0].ext, w[0].cat, [Rec(w[0].rec)] + Nests(w[1..])))
  {
    NestsSnoc(w0, e);
    if e.key in rows {
      IndexUpsertExisting(r0, e);
    } else if w0 != [] {
      IndexUpsertExisting(r0, e);
      assert (w0 + [e])[1..] == w0[1..] + [e];
      NestsSnoc(w0[1..], e);
    } else {
      assert (w0 + [e])[1..] == [];
    }
  }

  lemma NestsSnoc(w: seq<Entry>, e: Entry)
    ensures Nests(w + [e]) == Nests(w) + [Nest([e.rec])]
  {
  }

  lemma IndexUpsertExisting(r0: map<string, Row>, e: Entry)
    requires e.key in r0
    ensures IndexUpsert(r0, e)[e.key] == r0[e.key].(elems := r0[e.key].elems + [Nest([e.rec])])
  {
  }

  /** The records an element holds, as search_db reads them: a record, the
      records of a nested array, and nothing for a string. */
  function ElemFiles(e: Elem): seq<FileData>
  {
    match e
    case Rec(f) => [f]
    case Nest(fs) => fs
    case Str(_) => []
  }

  /** The records of a sequence of elements, one level of nesting flattened. */
  function Flatten(items: seq<Elem>): seq<FileData>
  {
    if items == [] then [] else Flatten(items[..|items| - 1]) + ElemFiles(items[|items| - 1])
  }

  lemma {:induction false} FlattenAppend(a: seq<Elem>, b: seq<Elem>)
    ensures Flatten(a + b) == Flatten(a) + Flatten(b)
    decreases |b|
  {
    if b == [] {
      assert a + b == a;
    } else {
      var init, x := b[..|b| - 1], b[|b| - 1];
      assert (a + b)[..|a + b| - 1] == a + init;
      assert (a + b)[|a + b| - 1] == x;
      FlattenAppend(a, init);
      assert Flatten(a + b) == Flatten(a) + Flatten(init) + ElemFiles(x);
    }
  }

  lemma {:induction false} FlattenOfNests(es: seq<Entry>)
    ensures Flatten(Nests(es)) == Recs(es)
  {
    if es != [] {
      var init := es[..|es| - 1];
      assert Nests(es)[..|es| - 1] == Nests(init);
      FlattenOfNests(init);
      assert Recs(es) == Recs(init) + [es[|es| - 1].rec];
    }
  }

  /** A row that build_search_index created holds, flattened, the records
      stored under its key, in input order. */
  lemma FilesOfNewRow(es: seq<Entry>, k: string)
    requires WithKey(es, k) != []
    ensures var w := WithKey(es, k); Flatten([Rec(w[0].rec)] + Nests(w[1..])) == Recs(w)
  {
    var w := WithKey(es, k);
    FlattenCons(Rec(w[0].rec), Nests(w[1..]));
    FlattenOfNests(w[1..]);
    RecsCons(w);
  }

  lemma {:induction false} WithKeyHas(es: seq<Entry>, i: nat)
    requires i < |es|
    ensures es[i] in WithKey(es, es[i].key)
    decreases |es|
  {
    if i < |es| - 1 {
      WithKeyHas(es[..|es| - 1], i);
    }
  }

  /** Every record build_search_index prepares is in its key's row, one
      nesting level flattened. */
  lemma StoredIsFlattened(es: seq<Entry>, i: nat)
    requires i < |es|
    ensures es[i].key in UpsertAll(map[], es)
    ensures es[i].rec in Flatten(UpsertAll(map[], es)[es[i].key].elems)
  {
    var k := es[i].key;
    var w := WithKey(es, k);
    WithKeyHas(es, i);
    RowOfUpsertAll(map[], es, k);
    FilesOfNewRow(es, k);
    var j :| 0 <= j < |w| && w[j] == es[i];
    assert Recs(w)[j] == es[i].rec;
  }

  lemma FlattenCons(x: Elem, ys: seq<Elem>)
    ensures Flatten([x] + ys) == ElemFiles(x) + Flatten(ys)
  {
    FlattenAppend([x], ys);
    assert [x][..0] == [];
  }

  lemma RecsCons(w: seq<Entry>)
    requires w != []
    ensures Recs(w) == [w[0].rec] + Recs(w[1..])
  {
  }

  /** Every nested element holds exactly one record: both writers append
      one record at a time. */
  ghost predicate SingletonNests(rows: map<string, Row>)
  {
    forall k, i | k in rows && 0 <= i < |rows[k].elems| :: rows[k].elems[i].Nest? ==> |rows[k].elems[i].recs| == 1
  }

  lemma UpsertKeepsSingletonNests(rows: map<string, Row>, e: Entry, first: Elem, more: Elem)
    requires SingletonNests(rows)
    requires first.Nest? ==> |first.recs| == 1
    requires more.Nest? ==> |more.recs| == 1
    ensures SingletonNests(Upsert(rows, e, first, more))
  {
  }

  lemma {:induction false} UpsertAllKeepsSingletonNests(rows: map<string, Row>, es: seq<Entry>)
    requires SingletonNests(rows)
    ensures SingletonNests(UpsertAll(rows, es))
  {
    if es != [] {
      UpsertAllKeepsSingletonNests(rows, es[..|es| - 1]);
      var e := es[|es| - 1];
      UpsertKeepsSingletonNests(UpsertAll(rows, es[..|es| - 1]), e, Rec(e.rec), Nest([e.rec]));
    }
  }

  // ---------------------------------------------------------------------
  // build_search_index

  /** The extension build_search_index stores: the lower-cased type, or
      "unknown" when the type is empty. */
  function ExtOf(db: CharDb, fileType: string): string
  {
    if fileType != [] then Lower(db, fileType) else "unknown"
  }

  /** The upsert build_search_index prepares for a record; None where
      get_value raises on its name. */
  function EntryOf(db: CharDb, f: FileData): (r: Option<Entry>)
    ensures r.Some? <==> NameKey(db, f.fileName).Some?
    ensures r.Some? ==> r.value.rec == f && NameKey(db, f.fileName) == Some(r.value.key)
  {
    match NameKey(db, f.fileName)
    case None => None
    case Some(k) => Some(Entry(k, ExtOf(db, f.fileType), GetFileCategory(db, ExtOf(db, f.fileType)), f))
  }

  /** A list slot build_search_index gets past only by `continue`: a record
      with an empty name. */
  predicate Skipped(x: Option<FileData>) { x.Some? && x.value.fileName == [] }

  /** A list slot that raises: `None` (no `file_name` attribute, as after an
      earlier run has cleared it) or a name get_value rejects. */
  predicate Fails(db: CharDb, x: Option<FileData>)
  {
    x.None? || (x.value.fileName != [] && NameKey(db, x.value.fileName).None?)
  }

  /** Which slots raise. */
  function FailFlags(db: CharDb, xs: seq<Option<FileData>>): (fl: seq<bool>)
    ensures |fl| == |xs|
  {
    seq(|xs|, k requires 0 <= k < |xs| => Fails(db, xs[k]))
  }

  /** The index of the first flag from `i` on that is set, or the length. */
  function FirstTrueFrom(fl: seq<bool>, i: nat): (j: nat)
    requires i <= |fl|
    ensures i <= j <= |fl|
    decreases |fl| - i
  {
    if i == |fl| then |fl| else if fl[i] then i else FirstTrueFrom(fl, i + 1)
  }

  /** The index of the first slot that raises, or the length of the list. */
  function FirstFailure(db: CharDb, xs: seq<Option<FileData>>): (j: nat)
    ensures j <= |xs|
  {
    FirstTrueFrom(FailFlags(db, xs), 0)
  }

  /** FirstFailure is the first slot that raises: none before it does, and it
      does unless it is the length. */
  lemma FirstFailureIsFirst(db: CharDb, xs: seq<Option<FileData>>)
    ensures forall k | 0 <= k < FirstFailure(db, xs) :: !Fails(db, xs[k])
    ensures FirstFailure(db, xs) < |xs| ==> Fails(db, xs[FirstFailure(db, xs)])
  {
    var fl := FailFlags(db, xs);
    forall k | 0 <= k < FirstFailure(db, xs)
      ensures !Fails(db, xs[k])
    {
      if fl[k] { FirstTrueFromAt(fl, 0, k); }
    }
    FirstTrueFromIsSet(fl, 0);
  }

  lemma {:induction false} FirstTrueFromIsSet(fl: seq<bool>, m: nat)
    requires m <= |fl|
    ensures FirstTrueFrom(fl, m) < |fl| ==> fl[FirstTrueFrom(fl, m)]
    decreases |fl| - m
  {
    if m < |fl| && !fl[m] { FirstTrueFromIsSet(fl, m + 1); }
  }

  lemma {:induction false} FirstTrueFromPast(fl: seq<bool>, m: nat, i: nat)
    requires i < |fl| && m <= i <= FirstTrueFrom(fl, m) && !fl[i]
    ensures i < FirstTrueFrom(fl, m)
    decreases i - m
  {
    if m < i {
      FirstTrueFromPast(fl, m + 1, i);
    }
  }

  lemma {:induction false} FirstTrueFromAt(fl: seq<bool>, m: nat, i: nat)
    requires i < |fl| && m <= i <= FirstTrueFrom(fl, m) && fl[i]
    ensures i == FirstTrueFrom(fl, m)
    decreases i - m
  {
    if m < i {
      FirstTrueFromAt(fl, m + 1, i);
    }
  }

  lemma FirstFailurePast(db: CharDb, xs: seq<Option<FileData>>, i: nat)
    requires i <= FirstFailure(db, xs) && i < |xs| && !Fails(db, xs[i])
    ensures i < FirstFailure(db, xs)
  {
    var fl := FailFlags(db, xs);
    assert !fl[i];
    FirstTrueFromPast(fl, 0, i);
  }

  lemma FirstFailureAt(db: CharDb, xs: seq<Option<FileData>>, i: nat)
    requires i <= FirstFailure(db, xs) && i < |xs| && Fails(db, xs[i])
    ensures i == FirstFailure(db, xs)
  {
    var fl := FailFlags(db, xs);
    assert fl[i];
    FirstTrueFromAt(fl, 0, i);
  }

  /** The upserts prepared for the first `n` slots of the list, in order. */
  function EntriesUpTo(db: CharDb, xs: seq<Option<FileData>>, n: nat): (es: seq<Entry>)
    requires n <= |xs|
    ensures |es| <= n
  {
    if n == 0 then []
    else
      var x := xs[n - 1];
      EntriesUpTo(db, xs, n - 1) + (if x.Some? && x.value.fileName != [] && EntryOf(db, x.value).Some? then [EntryOf(db, x.value).value] else [])
  }

  /** The slots `file_list[idx] = None` has reached among the first `n`: every
      record with a non-empty name. */
  function Nulled(xs: seq<Option<FileData>>, n: nat): (r: seq<Option<FileData>>)
    ensures |r| == |xs|
  {
    seq(|xs|, k requires 0 <= k < |xs| => if k < n && xs[k].Some? && !Skipped(xs[k]) then None else xs[k])
  }

  /** The indices progress is reported for among the first `n` slots: the
      records with a non-empty name at a multiple of 100. */
  function IndexReports(xs: seq<Option<FileData>>, n: nat): seq<nat>
    requires n <= |xs|
  {
    if n == 0 then []
    else IndexReports(xs, n - 1) + (if xs[n - 1].Some? && !Skipped(xs[n - 1]) && (n - 1) % 100 == 0 then [n - 1] else [])
  }

  /** Progress is reported, in increasing order, exactly at the records with
      a non-empty name whose index is a multiple of 100. */
  lemma {:induction false} IndexReportsExact(xs: seq<Option<FileData>>, n: nat)
    requires n <= |xs|
    ensures forall i, j | 0 <= i < j < |IndexReports(xs, n)| :: IndexReports(xs, n)[i] < IndexReports(xs, n)[j]
    ensures forall m: nat :: m in IndexReports(xs, n) <==> m < n && m % 100 == 0 && xs[m].Some? && !Skipped(xs[m])
  {
    if n > 0 {
      IndexReportsExact(xs, n - 1);
      IndexReportsBelow(xs, n - 1);
    }
  }

  lemma {:induction false} IndexReportsBelow(xs: seq<Option<FileData>>, n: nat)
    requires n <= |xs|
    ensures forall i | 0 <= i < |IndexReports(xs, n)| :: IndexReports(xs, n)[i] < n
  {
    if n > 0 {
      IndexReportsBelow(xs, n - 1);
    }
  }

  /** The batch size in effect: a batch is flushed once it holds
      `batchSize` entries, so a size below 1 acts as 1. */
  function BatchSize(batchSize: int): (b: nat)
    ensures b >= 1
  {
    if batchSize < 1 then 1 else batchSize
  }

  /** How many of `n` prepared upserts reached the database: whole batches of
      `b` only. */
  function Flushed(n: nat, b: nat): (m: nat)
    requires b >= 1
    ensures m <= n
  {
    if n < b then 0 else b + Flushed(n - b, b)
  }

  /** `n` is a whole number of batches of `b`. */
  predicate Batched(n: nat, b: nat)
    requires b >= 1
  {
    n == 0 || (n >= b && Batched(n - b, b))
  }

  lemma {:induction false} BatchedAdd(n: nat, b: nat)
    requires b >= 1 && Batched(n, b)
    ensures Batched(n + b, b)
    decreases n
  {
    if n != 0 {
      BatchedAdd(n - b, b);
    }
  }

  lemma {:induction false} FlushedOfBatches(done: nat, pending: nat, b: nat)
    requires b >= 1 && Batched(done, b) && pending < b
    ensures Flushed(done + pending, b) == done
    decreases done
  {
    if done != 0 {
      FlushedOfBatches(done - b, pending, b);
    }
  }

  /** The loop of build_search_index past a record with an empty name. */
  lemma SkipStep(db: CharDb, xs: seq<Option<FileData>>, i: nat)
    requires i <= FirstFailure(db, xs) && i < |xs| && Skipped(xs[i])
    ensures i < FirstFailure(db, xs)
    ensures EntriesUpTo(db, xs, i + 1) == EntriesUpTo(db, xs, i)
    ensures IndexReports(xs, i + 1) == IndexReports(xs, i)
    ensures Nulled(xs, i + 1) == Nulled(xs, i)
  {
    FirstFailurePast(db, xs, i);
    EntriesOfSkipped(db, xs, i);
    NulledOfSkipped(xs, i);
  }

  lemma EntriesOfSkipped(db: CharDb, xs: seq<Option<FileData>>, i: nat)
    requires i < |xs| && Skipped(xs[i])
    ensures EntriesUpTo(db, xs, i + 1) == EntriesUpTo(db, xs, i)
  {
    assert EntriesUpTo(db, xs, i + 1) == EntriesUpTo(db, xs, i) + [];
  }

  lemma NulledOfSkipped(xs: seq<Option<FileData>>, i: nat)
    requires i < |xs| && Skipped(xs[i])
    ensures Nulled(xs, i + 1) == Nulled(xs, i)
  {
    forall k | 0 <= k < |xs|
      ensures Nulled(xs, i + 1)[k] == Nulled(xs, i)[k]
    {
    }
  }

  lemma NulledOfProcessed(xs: seq<Option<FileData>>, i: nat)
    requires i < |xs| && xs[i].Some? && !Skipped(xs[i])
    ensures Nulled(xs, i + 1) == Nulled(xs, i)[i := None]
  {
    forall k | 0 <= k < |xs|
      ensures Nulled(xs, i + 1)[k] == if k == i then None else Nulled(xs, i)[k]
    {
    }
  }

  /** The loop of build_search_index past a record it prepares upsert `e` for. */
  lemma AcceptStep(db: CharDb, xs: seq<Option<FileData>>, i: nat, e: Entry)
    requires i <= FirstFailure(db, xs) && i < |xs| && xs[i] == Some(e.rec) && e.rec.fileName != []
    requires EntryOf(db, e.rec) == Some(e)
    ensures i < FirstFailure(db, xs)
    ensures EntriesUpTo(db, xs, i + 1) == EntriesUpTo(db, xs, i) + [e]
    ensures IndexReports(xs, i + 1) == IndexReports(xs, i) + (if i % 100 == 0 then [i] else [])
    ensures Nulled(xs, i + 1) == Nulled(xs, i)[i := None]
  {
    FirstFailurePast(db, xs, i);
    NulledOfProcessed(xs, i);
  }

  /** The loop of build_search_index stops at the first slot that raises;
      what had been flushed by then is every whole batch. */
  lemma StopAt(db: CharDb, xs: seq<Option<FileData>>, i: nat, done: seq<Entry>, batch: seq<Entry>, b: nat)
    requires i <= FirstFailure(db, xs) && i < |xs| && Fails(db, xs[i])
    requires b >= 1 && done + batch == EntriesUpTo(db, xs, i) && |batch| < b && Batched(|done|, b)
    ensures FirstFailure(db, xs) == i
    ensures var es := EntriesUpTo(db, xs, i); es[..Flushed(|es|, b)] == done
  {
    FirstFailureAt(db, xs, i);
    FlushedPrefix(done, batch, b);
  }

  /** build_search_index's loop invariant before slot i: no earlier slot
      raised; the earlier slots are cleared; the records so far are split
      into those flushed to the table, a whole number of batches, and the
      pending batch; progress has been reported for the records so far. */
  ghost predicate Progress(db: CharDb, orig: seq<Option<FileData>>, base: map<string, Row>, batchSize: int, i: nat,
                           list: seq<Option<FileData>>, rows: map<string, Row>, done: seq<Entry>, batch: seq<Entry>,
                           reports: seq<nat>)
  {
    && i <= FirstFailure(db, orig)
    && list == Nulled(orig, i)
    && done + batch == EntriesUpTo(db, orig, i)
    && |batch| < BatchSize(batchSize) && Batched(|done|, BatchSize(batchSize))
    && rows == UpsertAll(base, done)
    && reports == IndexReports(orig, i)
  }

  /** What build_search_index leaves behind, for the list `orig` and the
      table `base` it starts from. n is the first slot that raises (the
      length of the list when none does); the function succeeds iff no slot
      raises. The table has received the upserts of the records before n, in
      list order; on failure only those of the batches flushed before n.
      The slots before n are cleared, the rest kept, and progress is
      reported at every hundredth index among the processed records. */
  ghost predicate BuildOutcome(db: CharDb, orig: seq<Option<FileData>>, base: map<string, Row>, batchSize: int,
                               ok: bool, rows: map<string, Row>, list: seq<Option<FileData>>, reports: seq<nat>)
  {
    var n := FirstFailure(db, orig);
    var es := EntriesUpTo(db, orig, n);
    && (ok <==> n == |orig|)
    && rows == UpsertAll(base, if ok then es else es[..Flushed(|es|, BatchSize(batchSize))])
    && list == Nulled(orig, n)
    && reports == IndexReports(orig, n)
  }

  lemma StoppedOutcome(db: CharDb, orig: seq<Option<FileData>>, base: map<string, Row>, batchSize: int, i: nat,
                       done: seq<Entry>, batch: seq<Entry>, list: seq<Option<FileData>>, reports: seq<nat>)
    requires i <= FirstFailure(db, orig) && i < |orig| && Fails(db, orig[i])
    requires done + batch == EntriesUpTo(db, orig, i)
    requires |batch| < BatchSize(batchSize) && Batched(|done|, BatchSize(batchSize))
    requires list == Nulled(orig, i) && reports == IndexReports(orig, i)
    ensures BuildOutcome(db, orig, base, batchSize, false, UpsertAll(base, done), list, reports)
  {
    StopAt(db, orig, i, done, batch, BatchSize(batchSize));
  }

  lemma FinishedOutcome(db: CharDb, orig: seq<Option<FileData>>, base: map<string, Row>, batchSize: int, i: nat,
                        done: seq<Entry>, batch: seq<Entry>, list: seq<Option<FileData>>, reports: seq<nat>)
    requires i == |orig| && i <= FirstFailure(db, orig)
    requires done + batch == EntriesUpTo(db, orig, i)
    requires list == Nulled(orig, i) && reports == IndexReports(orig, i)
    ensures BuildOutcome(db, orig, base, batchSize, true, UpsertAll(base, done + batch), list, reports)
  {
  }

  lemma FlushedPrefix(done: seq<Entry>, batch: seq<Entry>, b: nat)
    requires b >= 1 && |batch| < b && Batched(|done|, b)
    ensures (done + batch)[..Flushed(|done + batch|, b)] == done
  {
    FlushedOfBatches(|done|, |batch|, b);
    assert (done + batch)[..|done|] == done;
  }

  /** The key, extension and category build_search_index computes for a
      list slot; None where the slot raises. */
  method PrepareEntry(db: CharDb, x: Option<FileData>) returns (e: Option<Entry>)
    requires !Skipped(x)
    ensures e.None? <==> Fails(db, x)
    ensures x.Some? ==> e == EntryOf(db, x.value)
  {
    if x.None? {
      return None;
    }
    var f := x.value;
    var key := NormaliseKey(db, f.fileName);
    if key.None? {
      return None;
    }
    var ext := if f.fileType != [] then Lower(db, f.fileType) else "unknown";
    var cat := GetFileCategory(db, ext);
    e := Some(Entry(key.value, ext, cat, f));
  }

  /** The table initiate_db leaves: the existing one, or an empty one. */
  function Opened(state: DbState, rows: map<string, Row>): (r: map<string, Row>)
    ensures state == Ready ==> r == rows
    ensures state != Ready ==> r == map[]
  {
    if state == Ready then rows else map[]
  }

  /** What a database path holds: no file; a file without the `file_index`
      table, as `sqlite3.connect` leaves a path it had to create; or the
      table. */
  datatype DbState = NoFile | NoTable | Ready

  /** One SQLite database file `file_search.db` with its table `file_index`.
      The core names two: DATA_DIR/file_search.db, which build_search_index,
      search_db and index_to_file_search_db use, and
      TREES_DIR/file_search.db, the only one search_db_startswith opens. */
  class Store {
    /** Whether the database file exists, and whether it holds the table. */
    var state: DbState
    /** The table, by `prefix`. */
    var rows: map<string, Row>

    ghost predicate Valid()
      reads this
    {
      (state != Ready ==> rows == map[]) && SingletonNests(rows)
    }

    /** No database file yet. */
    constructor ()
      ensures Valid() && state == NoFile && rows == map[]
    {
      state := NoFile;
      rows := map[];
    }

    /** initiate_db: `sqlite3.connect` creates a missing file, and `CREATE
        TABLE IF NOT EXISTS` an empty table where there is none, keeping an
        existing table as it is. */
    method InitiateDb()
      modifies this
      ensures state == Ready && rows == Opened(old(state), old(rows))
    {
      if state != Ready {
        rows := map[];
      }
      state := Ready;
    }

    /** `cursor.executemany(...)` followed by `conn.commit()`. */
    method ExecuteMany(batch: seq<Entry>)
      requires state == Ready
      modifies this
      ensures state == Ready && rows == UpsertAll(old(rows), batch)
    {
      var i := 0;
      while i < |batch|
        invariant 0 <= i <= |batch|
        invariant state == Ready && rows == UpsertAll(old(rows), batch[..i])
      {
        assert batch[..i + 1][..i] == batch[..i];
        rows := IndexUpsert(rows, batch[i]);
        i := i + 1;
      }
      assert batch[..i] == batch;
    }

    /** One record into the pending batch, flushed once it is full. `done`
        holds what has reached the database. */
    method Push(batch: seq<Entry>, e: Entry, batchSize: int, ghost base: map<string, Row>, ghost done: seq<Entry>)
      returns (batch': seq<Entry>, ghost done': seq<Entry>)
      requires state == Ready && rows == UpsertAll(base, done)
      requires |batch| < BatchSize(batchSize) && Batched(|done|, BatchSize(batchSize))
      modifies this
      ensures state == Ready && rows == UpsertAll(base, done')
      ensures done' + batch' == done + batch + [e]
      ensures |batch'| < BatchSize(batchSize) && Batched(|done'|, BatchSize(batchSize))
    {
      var b := BatchSize(batchSize);
      batch' := batch + [e];
      done' := done;
      if |batch'| >= batchSize {
        assert |batch'| == b;
        ExecuteMany(batch');
        UpsertAllAppend(base, done, batch');
        BatchedAdd(|done|, b);
        assert Batched(|done + batch'|, b);
        done' := done + batch';
        batch' := [];
        assert done' + batch' == done';
      }
    }

    /** build_search_index(file_list, progress_callback, batch_size). The
        list is an array of slots because the function clears each slot it
        has processed. The upserts are the sequential ones in input order,
        whatever the batch size. When a slot raises, the batches flushed
        before it stay committed and the pending batch is lost. */
    method BuildSearchIndex(db: CharDb, fileList: array<Option<FileData>>, batchSize: int) returns (ok: bool, reports: seq<nat>)
      modifies this, fileList
      ensures state == Ready
      ensures BuildOutcome(db, old(fileList[..]), Opened(old(state), old(rows)), batchSize, ok, rows, fileList[..], reports)
    {
      InitiateDb();
      ghost var orig := fileList[..];
      ghost var base := rows;
      assert base == Opened(old(state), old(rows));
      ghost var done: seq<Entry> := [];
      var batch: seq<Entry> := [];
      reports := [];
      var i := 0;
      while i < fileList.Length
        invariant i <= fileList.Length == |orig|
        invariant state == Ready && Progress(db, orig, base, batchSize, i, fileList[..], rows, done, batch, reports)
      {
        var failed;
        failed, batch, done, reports := Step(db, fileList, i, batch, batchSize, orig, base, done, reports);
        if failed {
          ok := false;
          return;
        }
        i := i + 1;
      }
      FinishedOutcome(db, orig, base, batchSize, i, done, batch, fileList[..], reports);
      if batch != [] {
        Flush(batch, base, done);
      } else {
        assert done + batch == done;
      }
      ok := true;
    }

    /** One turn of build_search_index's loop, on slot i: a record with an
        empty name is passed over; a slot that raises ends the function with
        False; any other record is added to the batch and its slot cleared. */
    method Step(db: CharDb, fileList: array<Option<FileData>>, i: nat, batch: seq<Entry>, batchSize: int,
                ghost orig: seq<Option<FileData>>, ghost base: map<string, Row>, ghost done: seq<Entry>, reports: seq<nat>)
      returns (failed: bool, batch': seq<Entry>, ghost done': seq<Entry>, reports': seq<nat>)
      requires i < fileList.Length == |orig|
      requires state == Ready && Progress(db, orig, base, batchSize, i, fileList[..], rows, done, batch, reports)
      modifies this, fileList
      ensures state == Ready
      ensures failed ==> BuildOutcome(db, orig, base, batchSize, false, rows, fileList[..], reports')
      ensures !failed ==> Progress(db, orig, base, batchSize, i + 1, fileList[..], rows, done', batch', reports')
    {
      var x := fileList[i];
      assert x == orig[i];
      batch', done', reports' := batch, done, reports;
      if x.Some? && x.value.fileName == [] {
        SkipStep(db, orig, i);
        return false, batch', done', reports';
      }
      var entry := PrepareEntry(db, x);
      if entry.None? {
        StoppedOutcome(db, orig, base, batchSize, i, done, batch, fileList[..], reports);
        return true, batch', done', reports';
      }
      AcceptStep(db, orig, i, entry.value);
      batch', done' := Accept(fileList, i, entry.value, batch, batchSize, orig, base, done);
      reports' := reports + (if i % 100 == 0 then [i] else []);
      failed := false;
    }

    /** The upsert of the remaining records after the loop. */
    method Flush(batch: seq<Entry>, ghost base: map<string, Row>, ghost done: seq<Entry>)
      requires state == Ready && rows == UpsertAll(base, done)
      modifies this
      ensures state == Ready && rows == UpsertAll(base, done + batch)
    {
      ExecuteMany(batch);
      UpsertAllAppend(base, done, batch);
    }

    /** The rest of a turn of build_search_index's loop for a record it has
        prepared upsert `e` for: into the batch, and the slot cleared. */
    method Accept(fileList: array<Option<FileData>>, i: nat, e: Entry, batch: seq<Entry>, batchSize: int,
                  ghost orig: seq<Option<FileData>>, ghost base: map<string, Row>, ghost done: seq<Entry>)
      returns (batch': seq<Entry>, ghost done': seq<Entry>)
      requires i < fileList.Length == |orig| && orig[i].Some? && !Skipped(orig[i])
      requires state == Ready && fileList[..] == Nulled(orig, i) && rows == UpsertAll(base, done)
      requires |batch| < BatchSize(batchSize) && Batched(|done|, BatchSize(batchSize))
      modifies this, fileList
      ensures state == Ready && fileList[..] == Nulled(orig, i + 1) && rows == UpsertAll(base, done')
      ensures done' + batch' == done + batch + [e]
      ensures |batch'| < BatchSize(batchSize) && Batched(|done'|, BatchSize(batchSize))
    {
      batch', done' := Push(batch, e, batchSize, base, done);
      NulledOfProcessed(orig, i);
      fileList[i] := None;
    }

    /** search_db: the prefix SELECT over the table scanned in `order`, then
        the loop that collects the records of the rows it returns. */
    method SearchDb(db: CharDb, query: string, limit: int, categories: seq<string>, order: seq<string>)
      returns (r: Option<seq<FileData>>)
      requires IsListing(order, rows)
      ensures r == SearchDbResult(db, state, rows, order, query, limit, categories)
    {
      if query == [] {
        return Some([]);
      }
      var prefix := NormaliseKey(db, query);
      if prefix.None? {
        return None;
      }
      if state == NoFile {
        return Some([]);
      }
      if state == NoTable {
        return None;
      }
      var results := Take(Matches(rows, order, prefix.value, categories), limit);
      var files := ScanRows(rows, results, limit);
      r := Some(files);
    }

    /** search_db_startswith, on the database it opens, TREES_DIR/file_search.db
        (line 432): the prefix SELECT without a limit or a category filter,
        then the records of every matching row collected in a dict by path. */
    method SearchDbStartswith(db: CharDb, query: string, order: seq<string>) returns (r: Option<seq<FileData>>)
      requires IsListing(order, rows)
      ensures r == StartswithResult(db, state, rows, order, query)
    {
      if query == [] {
        return Some([]);
      }
      var prefix := NormaliseKey(db, query);
      if prefix.None? {
        return None;
      }
      if state == NoFile {
        return Some([]);
      }
      if state == NoTable {
        return None;
      }
      var results := Matches(rows, order, prefix.value, []);
      var unique := CollectRows(rows, results);
      if unique.None? {
        return None;
      }
      DictOfWellFormed(CollectedRecords(rows, results));
      r := Some(Values(unique.value));
    }
  }

  // ---------------------------------------------------------------------
  // search_db

  /** `key LIKE p || '%'`, for keys and patterns without wildcards. */
  predicate StartsWith(s: string, p: string) { |p| <= |s| && s[..|p|] == p }

  /** `order` lists every key of `rows` once: the order in which the table is
      scanned, which SQLite leaves unspecified. */
  ghost predicate IsListing(order: seq<string>, rows: map<string, Row>)
  {
    (forall k :: k in order <==> k in rows) && forall i, j | 0 <= i < j < |order| :: order[i] != order[j]
  }

  /** The keys, in scan order, of the rows the SELECT's WHERE clause admits:
      the key starts with `p` and, when `cats` is non-empty, the row's
      category is one of them. */
  function Matches(rows: map<string, Row>, order: seq<string>, p: string, cats: seq<string>): (ks: seq<string>)
    ensures forall k | k in ks :: k in order && k in rows && StartsWith(k, p) && (cats == [] || rows[k].cat in cats)
  {
    if order == [] then []
    else
      var k := order[|order| - 1];
      Matches(rows, order[..|order| - 1], p, cats) +
        (if k in rows && StartsWith(k, p) && (cats == [] || rows[k].cat in cats) then [k] else [])
  }

  /** `LIMIT n`: the first n rows; a negative n means no limit. */
  function Take(ks: seq<string>, limit: int): (r: seq<string>)
    ensures r <= ks
    ensures limit >= 0 ==> |r| <= limit
    ensures limit < 0 || |ks| <= limit ==> r == ks
  {
    if limit < 0 || limit >= |ks| then ks else ks[..limit]
  }

  /** The `files_json` elements of the rows `ks`, one row after another. */
  function RowItems(rows: map<string, Row>, ks: seq<string>): seq<Elem>
  {
    if ks == [] then []
    else RowItems(rows, ks[..|ks| - 1]) + (if ks[|ks| - 1] in rows then rows[ks[|ks| - 1]].elems else [])
  }

  /** The loop of search_db over the elements: each one's records are added,
      and the loop stops as soon as there are `limit` records or more. The
      flag says whether it stopped early. */
  function Scan(items: seq<Elem>, limit: int): (seq<FileData>, bool)
  {
    if items == [] then ([], false)
    else
      var (acc, stopped) := Scan(items[..|items| - 1], limit);
      if stopped then (acc, true)
      else
        var acc' := acc + ElemFiles(items[|items| - 1]);
        (acc', |acc'| >= limit)
  }

  /** search_db(query, limit, categories); None where get_value raises on the
      query. `state` says whether the database file exists and holds the
      table: search_db returns [] without a file, and its SELECT raises on a
      file without the table. */
  function SearchDbResult(db: CharDb, state: DbState, rows: map<string, Row>, order: seq<string>,
                          query: string, limit: int, cats: seq<string>): Option<seq<FileData>>
  {
    if query == [] then Some([])
    else match NameKey(db, query)
      case None => None
      case Some(p) =>
        match state
        case NoFile => Some([])
        case NoTable => None
        case Ready => Some(Scan(RowItems(rows, Take(Matches(rows, order, p, cats), limit)), limit).0)
  }

  lemma {:induction false} ScanStopped(a: seq<Elem>, b: seq<Elem>, limit: int)
    requires Scan(a, limit).1
    ensures Scan(a + b, limit) == Scan(a, limit)
    decreases |b|
  {
    if b == [] {
      assert a + b == a;
    } else {
      assert (a + b)[..|a + b| - 1] == a + b[..|b| - 1];
      ScanStopped(a, b[..|b| - 1], limit);
    }
  }

  /** What search_db returns is the records of the matching rows, in order,
      cut short: a prefix of them. */
  lemma {:induction false} ScanIsPrefix(items: seq<Elem>, limit: int)
    ensures Scan(items, limit).0 <= Flatten(items)
    ensures !Scan(items, limit).1 ==> Scan(items, limit).0 == Flatten(items)
  {
    if items != [] {
      ScanIsPrefix(items[..|items| - 1], limit);
      FlattenIsMonotone(items[..|items| - 1], items[|items| - 1]);
    }
  }

  lemma FlattenIsMonotone(a: seq<Elem>, x: Elem)
    ensures Flatten(a) <= Flatten(a + [x])
  {
    assert (a + [x])[..|a|] == a;
  }

  /** Fewer records than the limit: nothing is cut. */
  lemma {:induction false} ScanComplete(items: seq<Elem>, limit: int)
    requires |Flatten(items)| < limit
    ensures Scan(items, limit) == (Flatten(items), false)
  {
    if items != [] {
      var init := items[..|items| - 1];
      FlattenIsMonotone(init, items[|items| - 1]);
      assert items == init + [items[|items| - 1]];
      ScanComplete(init, limit);
    }
  }

  /** With at most one record per element and a positive limit, the loop
      never returns more than `limit` records. */
  lemma {:induction false} ScanBound(items: seq<Elem>, limit: int)
    requires limit >= 1 && forall i | 0 <= i < |items| :: |ElemFiles(items[i])| <= 1
    ensures |Scan(items, limit).0| <= limit
    ensures !Scan(items, limit).1 ==> |Scan(items, limit).0| < limit
  {
    if items != [] {
      ScanBound(items[..|items| - 1], limit);
    }
  }

  /** A negative limit keeps every row (SQLite reads it as no limit) but ends
      the loop after the first element: only its records are returned. */
  lemma {:induction false} ScanNegativeLimit(items: seq<Elem>, limit: int)
    requires limit < 0 && items != []
    ensures Scan(items, limit) == (ElemFiles(items[0]), true)
    decreases |items|
  {
    if |items| > 1 {
      var init := items[..|items| - 1];
      ScanNegativeLimit(init, limit);
      assert init[0] == items[0];
    } else {
      assert items[..|items| - 1] == [];
      assert Scan(items[..|items| - 1], limit) == ([], false);
      assert items[|items| - 1] == items[0];
      assert Scan(items, limit).0 == [] + ElemFiles(items[0]);
      assert [] + ElemFiles(items[0]) == ElemFiles(items[0]);
    }
  }

  lemma {:induction false} RowItemsAppend(rows: map<string, Row>, a: seq<string>, b: seq<string>)
    ensures RowItems(rows, a + b) == RowItems(rows, a) + RowItems(rows, b)
    decreases |b|
  {
    if b == [] {
      assert a + b == a;
    } else {
      assert (a + b)[..|a + b| - 1] == a + b[..|b| - 1];
      RowItemsAppend(rows, a, b[..|b| - 1]);
    }
  }

  /** Every element of the listed rows belongs to one of them. */
  lemma {:induction false} RowItemsFrom(rows: map<string, Row>, ks: seq<string>, x: Elem)
    requires x in RowItems(rows, ks)
    ensures exists i | 0 <= i < |ks| :: ks[i] in rows && x in rows[ks[i]].elems
  {
    var init := ks[..|ks| - 1];
    if x in RowItems(rows, init) {
      RowItemsFrom(rows, init, x);
      var i :| 0 <= i < |init| && init[i] in rows && x in rows[init[i]].elems;
      assert ks[i] == init[i];
    } else {
      assert ks[|ks| - 1] in rows && x in rows[ks[|ks| - 1]].elems;
    }
  }

  lemma {:induction false} FlattenFrom(items: seq<Elem>, f: FileData)
    requires f in Flatten(items)
    ensures exists x | x in items :: f in ElemFiles(x)
  {
    var init := items[..|items| - 1];
    if f in Flatten(init) {
      FlattenFrom(init, f);
    } else {
      assert f in ElemFiles(items[|items| - 1]);
    }
  }

  lemma {:induction false} RowItemsSingletons(rows: map<string, Row>, ks: seq<string>)
    requires SingletonNests(rows)
    ensures forall i | 0 <= i < |RowItems(rows, ks)| :: |ElemFiles(RowItems(rows, ks)[i])| <= 1
  {
    if ks != [] {
      RowItemsSingletons(rows, ks[..|ks| - 1]);
    }
  }

  /** Every record search_db returns comes from a row whose key starts with
      the normalised query and whose category passes the filter. */
  lemma SearchDbSound(db: CharDb, state: DbState, rows: map<string, Row>, order: seq<string>,
                      query: string, limit: int, cats: seq<string>, f: FileData)
    requires SearchDbResult(db, state, rows, order, query, limit, cats).Some?
    requires f in SearchDbResult(db, state, rows, order, query, limit, cats).value
    ensures query != [] && state == Ready && NameKey(db, query).Some?
    ensures exists k | k in rows ::
      StartsWith(k, NameKey(db, query).value) && (cats == [] || rows[k].cat in cats) && f in Flatten(rows[k].elems)
  {
    var p := NameKey(db, query).value;
    var ks := Take(Matches(rows, order, p, cats), limit);
    var items := RowItems(rows, ks);
    ScanIsPrefix(items, limit);
    assert f in Flatten(items);
    FlattenFrom(items, f);
    var x :| x in items && f in ElemFiles(x);
    RowItemsFrom(rows, ks, x);
    var i :| 0 <= i < |ks| && ks[i] in rows && x in rows[ks[i]].elems;
    assert ks[i] in Matches(rows, order, p, cats);
    ElemInFlatten(rows[ks[i]].elems, x, f);
  }

  lemma {:induction false} ElemInFlatten(items: seq<Elem>, x: Elem, f: FileData)
    requires x in items && f in ElemFiles(x)
    ensures f in Flatten(items)
  {
    var init, last := items[..|items| - 1], items[|items| - 1];
    assert Flatten(items) == Flatten(init) + ElemFiles(last);
    if x != last {
      assert x in init by {
        assert items == init + [last];
      }
      ElemInFlatten(init, x, f);
    }
  }

  /** On a table whose nested elements hold one record each (as both writers
      leave it), search_db returns at most `limit` records for a limit of 0
      or more. */
  lemma SearchDbBound(db: CharDb, state: DbState, rows: map<string, Row>, order: seq<string>,
                      query: string, limit: int, cats: seq<string>)
    requires SingletonNests(rows) && limit >= 0
    requires SearchDbResult(db, state, rows, order, query, limit, cats).Some?
    ensures |SearchDbResult(db, state, rows, order, query, limit, cats).value| <= limit
  {
    if query != [] && state == Ready && NameKey(db, query).Some? {
      var ks := Take(Matches(rows, order, NameKey(db, query).value, cats), limit);
      if limit == 0 {
        assert ks == [];
      } else {
        RowItemsSingletons(rows, ks);
        ScanBound(RowItems(rows, ks), limit);
      }
    }
  }

  /** When the limit exceeds both the number of matching rows and the number
      of their records, search_db returns all those records, row by row in
      scan order. */
  lemma SearchDbComplete(db: CharDb, state: DbState, rows: map<string, Row>, order: seq<string>,
                         query: string, limit: int, cats: seq<string>)
    requires query != [] && state == Ready && NameKey(db, query).Some?
    requires var ms := Matches(rows, order, NameKey(db, query).value, cats);
      |ms| <= limit && |Flatten(RowItems(rows, ms))| < limit
    ensures SearchDbResult(db, state, rows, order, query, limit, cats)
      == Some(Flatten(RowItems(rows, Matches(rows, order, NameKey(db, query).value, cats))))
  {
    ScanComplete(RowItems(rows, Matches(rows, order, NameKey(db, query).value, cats)), limit);
  }

  /** A negative limit returns only the records of the first element of the
      first matching row. */
  lemma SearchDbNegativeLimit(db: CharDb, state: DbState, rows: map<string, Row>, order: seq<string>,
                              query: string, limit: int, cats: seq<string>)
    requires query != [] && state == Ready && NameKey(db, query).Some? && limit < 0
    requires RowItems(rows, Matches(rows, order, NameKey(db, query).value, cats)) != []
    ensures SearchDbResult(db, state, rows, order, query, limit, cats)
      == Some(ElemFiles(RowItems(rows, Matches(rows, order, NameKey(db, query).value, cats))[0]))
  {
    ScanNegativeLimit(RowItems(rows, Matches(rows, order, NameKey(db, query).value, cats)), limit);
  }

  /** The loop of search_db over the rows the SELECT returns. */
  method ScanRows(rows: map<string, Row>, results: seq<string>, limit: int) returns (files: seq<FileData>)
    ensures files == Scan(RowItems(rows, results), limit).0
  {
    files := [];
    var n := 0;
    while n < |results|
      invariant n <= |results|
      invariant Scan(RowItems(rows, results[..n]), limit) == (files, false)
    {
      var elems := if results[n] in rows then rows[results[n]].elems else [];
      var stop;
      files, stop := ScanRow(files, elems, RowItems(rows, results[..n]), limit);
      RowItemsSnoc(rows, results, n);
      if stop {
        ScanStoppedPrefix(rows, results, n + 1, limit);
        return;
      }
      n := n + 1;
    }
    assert results[..n] == results;
  }

  /** The inner loop of search_db over the elements of one row, after the
      elements `before` of the rows already scanned; `stop` says that it
      reached the limit, where search_db returns. */
  method ScanRow(files: seq<FileData>, elems: seq<Elem>, ghost before: seq<Elem>, limit: int)
    returns (files': seq<FileData>, stop: bool)
    requires Scan(before, limit) == (files, false)
    ensures Scan(before + elems, limit) == (files', stop)
  {
    files' := files;
    assert before + elems[..0] == before;
    var j := 0;
    ghost var seen := before;
    while j < |elems|
      invariant j <= |elems| && seen == before + elems[..j]
      invariant Scan(seen, limit) == (files', false)
    {
      ScanSnoc(seen, elems[j], limit);
      SliceSnoc(before, elems, j);
      seen := seen + [elems[j]];
      files' := files' + ElemFiles(elems[j]);
      if |files'| >= limit {
        SplitAfter(before, elems, j + 1);
        ScanStopped(seen, elems[j + 1..], limit);
        return files', true;
      }
      j := j + 1;
    }
    assert elems[..j] == elems;
    stop := false;
  }

  /** Once search_db's loop has stopped within the first m rows, the rest
      does not change what it returns. */
  lemma ScanStoppedPrefix(rows: map<string, Row>, results: seq<string>, m: nat, limit: int)
    requires m <= |results| && Scan(RowItems(rows, results[..m]), limit).1
    ensures Scan(RowItems(rows, results), limit) == Scan(RowItems(rows, results[..m]), limit)
  {
    SplitAt(results, m);
    RowItemsAppend(rows, results[..m], results[m..]);
    ScanStopped(RowItems(rows, results[..m]), RowItems(rows, results[m..]), limit);
  }

  lemma SplitAt<T>(s: seq<T>, i: nat)
    requires i <= |s|
    ensures s[..i] + s[i..] == s
  {
  }

  lemma SplitAfter<T>(a: seq<T>, b: seq<T>, j: nat)
    requires j <= |b|
    ensures a + b == (a + b[..j]) + b[j..]
  {
    assert b == b[..j] + b[j..];
  }

  lemma Regroup<T>(a: seq<T>, b: seq<T>, c: seq<T>, j: nat)
    requires j <= |b|
    ensures (a + b) + c == (a + b[..j]) + (b[j..] + c)
  {
    assert b == b[..j] + b[j..];
  }

  lemma RowItemsSnoc(rows: map<string, Row>, ks: seq<string>, n: nat)
    requires n < |ks|
    ensures RowItems(rows, ks[..n + 1]) == RowItems(rows, ks[..n]) + (if ks[n] in rows then rows[ks[n]].elems else [])
  {
    assert ks[..n + 1][..n] == ks[..n];
  }

  lemma ScanSnoc(items: seq<Elem>, x: Elem, limit: int)
    ensures Scan(items + [x], limit)
      == (if Scan(items, limit).1 then Scan(items, limit)
          else (Scan(items, limit).0 + ElemFiles(x), |Scan(items, limit).0 + ElemFiles(x)| >= limit))
  {
    assert (items + [x])[..|items|] == items;
  }

  lemma SliceSnoc<T>(a: seq<T>, b: seq<T>, j: nat)
    requires j < |b|
    ensures a + b[..j + 1] == (a + b[..j]) + [b[j]]
  {
    assert b[..j + 1] == b[..j] + [b[j]];
  }

  // ---------------------------------------------------------------------
  // search_db_startswith

  /** `FileData.from_dict` on each element of the arrays, in order. Where an
      element is a nested array or a string, indexing it by "file_name"
      raises TypeError: None. */
  function FromDicts(items: seq<Elem>): Option<seq<FileData>>
  {
    if items == [] then Some([])
    else match FromDicts(items[..|items| - 1])
      case None => None
      case Some(fs) =>
        var x := items[|items| - 1];
        if x.Rec? then Some(fs + [x.rec]) else None
  }

  /** The `unique_files` dict: its keys in insertion order and its entries. */
  datatype PathDict = PathDict(keys: seq<string>, entries: map<string, FileData>)

  /** `unique_files[f.file_path] = f`: a new key goes to the end, an existing
      key keeps its place and takes the new value. */
  function Put(d: PathDict, f: FileData): PathDict
  {
    if f.filePath in d.entries then d.(entries := d.entries[f.filePath := f])
    else PathDict(d.keys + [f.filePath], d.entries[f.filePath := f])
  }

  /** The dict after putting the records in order, from an empty one. */
  function DictOf(fs: seq<FileData>): PathDict
  {
    if fs == [] then PathDict([], map[]) else Put(DictOf(fs[..|fs| - 1]), fs[|fs| - 1])
  }

  /** `list(d.values())`. */
  function Values(d: PathDict): seq<FileData>
    requires forall i | 0 <= i < |d.keys| :: d.keys[i] in d.entries
  {
    seq(|d.keys|, i requires 0 <= i < |d.keys| && d.keys[i] in d.entries => d.entries[d.keys[i]])
  }

  /** The dict's keys are the records' paths, each once, and each entry is
      a record filed under its own path. */
  ghost predicate WellFormed(d: PathDict)
  {
    && (forall k :: k in d.keys <==> k in d.entries)
    && (forall i, j | 0 <= i < j < |d.keys| :: d.keys[i] != d.keys[j])
    && (forall k | k in d.entries :: d.entries[k].filePath == k)
  }

  lemma {:induction false} DictOfWellFormed(fs: seq<FileData>)
    ensures WellFormed(DictOf(fs))
    ensures forall k :: k in DictOf(fs).entries <==> exists i | 0 <= i < |fs| :: fs[i].filePath == k
  {
    if fs != [] {
      var init, f := fs[..|fs| - 1], fs[|fs| - 1];
      DictOfWellFormed(init);
      var d := DictOf(init);
      forall k ensures k in DictOf(fs).entries <==> exists i | 0 <= i < |fs| :: fs[i].filePath == k {
        if k in d.entries {
          var i :| 0 <= i < |init| && init[i].filePath == k;
          assert fs[i] == init[i];
        }
        if exists i | 0 <= i < |fs| :: fs[i].filePath == k {
          var i :| 0 <= i < |fs| && fs[i].filePath == k;
          if i < |init| {
            assert init[i] == fs[i];
          }
        }
      }
    }
  }

  /** The records search_db_startswith returns for the records `fs` it reads:
      one per distinct path. */
  function Dedup(fs: seq<FileData>): seq<FileData>
  {
    DictOfWellFormed(fs);
    Values(DictOf(fs))
  }

  /** search_db_startswith(query), reading the table scanned in `order`; None
      where it raises: on a query get_value rejects, and on any matching row
      holding an element that is not a record's dictionary. */
  function StartswithResult(db: CharDb, state: DbState, rows: map<string, Row>, order: seq<string>, query: string)
    : Option<seq<FileData>>
  {
    if query == [] then Some([])
    else match NameKey(db, query)
      case None => None
      case Some(p) =>
        match state
        case NoFile => Some([])
        case NoTable => None
        case Ready => match FromDicts(RowItems(rows, Matches(rows, order, p, [])))
          case None => None
          case Some(fs) => Some(Dedup(fs))
  }

  lemma FromDictsSnoc(items: seq<Elem>, x: Elem)
    ensures FromDicts(items + [x])
      == if FromDicts(items).Some? && x.Rec? then Some(FromDicts(items).value + [x.rec]) else None
  {
    assert (items + [x])[..|items|] == items;
  }

  lemma {:induction false} FromDictsNone(a: seq<Elem>, b: seq<Elem>)
    requires FromDicts(a).None?
    ensures FromDicts(a + b).None?
    decreases |b|
  {
    if b == [] {
      assert a + b == a;
    } else {
      assert (a + b)[..|a + b| - 1] == a + b[..|b| - 1];
      FromDictsNone(a, b[..|b| - 1]);
    }
  }

  /** from_dict succeeds on every element exactly when every element is a
      record's dictionary, and then gives the records in order. */
  lemma {:induction false} FromDictsIff(items: seq<Elem>)
    ensures FromDicts(items).Some? <==> forall i | 0 <= i < |items| :: items[i].Rec?
    ensures FromDicts(items).Some? ==> FromDicts(items).value == Flatten(items)
  {
    if items != [] {
      var init, x := items[..|items| - 1], items[|items| - 1];
      FromDictsIff(init);
      assert forall i | 0 <= i < |init| :: init[i] == items[i];
    }
  }

  lemma DictOfSnoc(fs: seq<FileData>, f: FileData)
    ensures DictOf(fs + [f]) == Put(DictOf(fs), f)
  {
    assert (fs + [f])[..|fs|] == fs;
  }

  /** The position of the last record with path k, or -1. */
  function LastIndex(fs: seq<FileData>, k: string): (r: int)
    ensures -1 <= r < |fs|
    ensures r >= 0 ==> fs[r].filePath == k
    ensures forall i | r < i < |fs| :: fs[i].filePath != k
  {
    if fs == [] then -1
    else if fs[|fs| - 1].filePath == k then |fs| - 1
    else LastIndex(fs[..|fs| - 1], k)
  }

  /** The position of the first record with path k, or |fs|. */
  function FirstIndex(fs: seq<FileData>, k: string): (r: nat)
    ensures r <= |fs|
    ensures r < |fs| ==> fs[r].filePath == k
    ensures forall i | 0 <= i < r :: fs[i].filePath != k
  {
    if fs == [] then 0
    else
      var r := FirstIndex(fs[..|fs| - 1], k);
      if r < |fs| - 1 then r else if fs[|fs| - 1].filePath == k then |fs| - 1 else |fs|
  }

  /** Each entry of the dict is the last record put under its path. */
  lemma {:induction false} DictOfEntries(fs: seq<FileData>)
    ensures forall k | k in DictOf(fs).entries :: LastIndex(fs, k) >= 0 && DictOf(fs).entries[k] == fs[LastIndex(fs, k)]
  {
    if fs != [] {
      var init := fs[..|fs| - 1];
      DictOfEntries(init);
      forall k | k in DictOf(fs).entries
        ensures LastIndex(fs, k) >= 0 && DictOf(fs).entries[k] == fs[LastIndex(fs, k)]
      {
        if k != fs[|fs| - 1].filePath {
          assert k in DictOf(init).entries;
          assert LastIndex(fs, k) == LastIndex(init, k);
        }
      }
    }
  }

  /** The dict's keys are in the order of their first records. */
  lemma {:induction false} DictOfOrder(fs: seq<FileData>)
    ensures forall i | 0 <= i < |DictOf(fs).keys| :: FirstIndex(fs, DictOf(fs).keys[i]) < |fs|
    ensures forall i, j | 0 <= i < j < |DictOf(fs).keys| ::
      FirstIndex(fs, DictOf(fs).keys[i]) < FirstIndex(fs, DictOf(fs).keys[j])
  {
    if fs != [] {
      var init, f := fs[..|fs| - 1], fs[|fs| - 1];
      DictOfOrder(init);
      DictOfWellFormed(init);
      var d := DictOf(init);
      assert forall i | 0 <= i < |d.keys| :: FirstIndex(fs, d.keys[i]) == FirstIndex(init, d.keys[i]);
      if f.filePath !in d.entries {
        assert forall i | 0 <= i < |d.keys| :: d.keys[i] != f.filePath;
        assert forall i | 0 <= i < |init| :: init[i].filePath != f.filePath;
        FirstIndexOfNew(init, f);
      }
    }
  }

  lemma FirstIndexOfNew(init: seq<FileData>, f: FileData)
    requires forall i | 0 <= i < |init| :: init[i].filePath != f.filePath
    ensures FirstIndex(init + [f], f.filePath) == |init|
  {
    assert (init + [f])[..|init|] == init;
  }

  /** What search_db_startswith does with the records it reads: one record
      per path, no path twice; that record is the last one read with its
      path; the paths come in the order in which they were first read; and
      every path read is there. */
  lemma DedupProperties(fs: seq<FileData>)
    ensures var r := Dedup(fs);
      forall i, j | 0 <= i < j < |r| :: r[i].filePath != r[j].filePath
    ensures var r := Dedup(fs);
      forall i | 0 <= i < |r| :: LastIndex(fs, r[i].filePath) >= 0 && r[i] == fs[LastIndex(fs, r[i].filePath)]
    ensures var r := Dedup(fs);
      forall i, j | 0 <= i < j < |r| :: FirstIndex(fs, r[i].filePath) < FirstIndex(fs, r[j].filePath)
    ensures var r := Dedup(fs);
      forall i | 0 <= i < |fs| :: exists j | 0 <= j < |r| :: r[j].filePath == fs[i].filePath
  {
    var d := DictOf(fs);
    DictOfWellFormed(fs);
    DictOfEntries(fs);
    DictOfOrder(fs);
    var r := Dedup(fs);
    assert forall i | 0 <= i < |r| :: r[i] == d.entries[d.keys[i]] && r[i].filePath == d.keys[i];
    forall i | 0 <= i < |fs| ensures exists j | 0 <= j < |r| :: r[j].filePath == fs[i].filePath {
      assert fs[i].filePath in d.entries;
      var j :| 0 <= j < |d.keys| && d.keys[j] == fs[i].filePath;
      assert r[j].filePath == fs[i].filePath;
    }
  }

  /** The records search_db_startswith's loop reads from the rows `results`,
      when from_dict accepts them all. */
  ghost function CollectedRecords(rows: map<string, Row>, results: seq<string>): seq<FileData>
  {
    var fs := FromDicts(RowItems(rows, results));
    if fs.Some? then fs.value else []
  }

  /** The loop of search_db_startswith over the rows: the `unique_files`
      dict, or None where from_dict raises. */
  method CollectRows(rows: map<string, Row>, results: seq<string>) returns (d: Option<PathDict>)
    ensures d.None? <==> FromDicts(RowItems(rows, results)).None?
    ensures d.Some? ==> d.value == DictOf(CollectedRecords(rows, results))
  {
    var unique := PathDict([], map[]);
    ghost var recs: seq<FileData> := [];
    var n := 0;
    while n < |results|
      invariant n <= |results|
      invariant FromDicts(RowItems(rows, results[..n])) == Some(recs) && unique == DictOf(recs)
    {
      var elems := if results[n] in rows then rows[results[n]].elems else [];
      var next;
      next, recs := CollectRow(unique, elems, RowItems(rows, results[..n]), recs);
      RowItemsSnoc(rows, results, n);
      if next.None? {
        SplitAt(results, n + 1);
        RowItemsAppend(rows, results[..n + 1], results[n + 1..]);
        FromDictsNone(RowItems(rows, results[..n + 1]), RowItems(rows, results[n + 1..]));
        return None;
      }
      unique := next.value;
      n := n + 1;
    }
    assert results[..n] == results;
    d := Some(unique);
  }

  /** The inner loop over the elements of one row, after the elements
      `before` of the earlier rows, which gave the records `recs`. */
  method CollectRow(unique: PathDict, elems: seq<Elem>, ghost before: seq<Elem>, ghost recs: seq<FileData>)
    returns (d: Option<PathDict>, ghost recs': seq<FileData>)
    requires FromDicts(before) == Some(recs) && unique == DictOf(recs)
    ensures d.None? <==> FromDicts(before + elems).None?
    ensures d.Some? ==> FromDicts(before + elems) == Some(recs') && d.value == DictOf(recs')
  {
    var u := unique;
    recs' := recs;
    ghost var seen := before;
    assert before + elems[..0] == before;
    var j := 0;
    while j < |elems|
      invariant j <= |elems| && seen == before + elems[..j]
      invariant FromDicts(seen) == Some(recs') && u == DictOf(recs')
    {
      FromDictsSnoc(seen, elems[j]);
      SliceSnoc(before, elems, j);
      if !elems[j].Rec? {
        SplitAfter(before, elems, j + 1);
        FromDictsNone(seen + [elems[j]], elems[j + 1..]);
        return None, recs';
      }
      var f := elems[j].rec;
      DictOfSnoc(recs', f);
      u := Put(u, f);
      recs' := recs' + [f];
      seen := seen + [elems[j]];
      j := j + 1;
    }
    assert elems[..j] == elems;
    d := Some(u);
  }

  /** Every row the WHERE clause admits is among the matches. */
  lemma {:induction false} MatchesComplete(rows: map<string, Row>, order: seq<string>, p: string, cats: seq<string>, k: string)
    requires k in order && k in rows && StartsWith(k, p) && (cats == [] || rows[k].cat in cats)
    ensures k in Matches(rows, order, p, cats)
  {
    if order[|order| - 1] != k {
      var init := order[..|order| - 1];
      assert k in init by {
        assert order == init + [order[|order| - 1]];
      }
      MatchesComplete(rows, init, p, cats, k);
    }
  }

  /** The elements of each listed row are among the listed rows' elements. */
  lemma {:induction false} RowItemsHas(rows: map<string, Row>, ks: seq<string>, k: string, x: Elem)
    requires k in ks && k in rows && x in rows[k].elems
    ensures x in RowItems(rows, ks)
  {
    var init, last := ks[..|ks| - 1], ks[|ks| - 1];
    if last != k {
      assert k in init by {
        assert ks == init + [last];
      }
      RowItemsHas(rows, init, k, x);
    }
  }

  /** The records of each listed row are among the listed rows' records. */
  lemma {:induction false} FlattenRowItemsHas(rows: map<string, Row>, ks: seq<string>, k: string, f: FileData)
    requires k in ks && k in rows && f in Flatten(rows[k].elems)
    ensures f in Flatten(RowItems(rows, ks))
  {
    assert ks != [];
    var init, last := ks[..|ks| - 1], ks[|ks| - 1];
    assert ks == init + [last];
    var tail := if last in rows then rows[last].elems else [];
    assert RowItems(rows, ks) == RowItems(rows, init) + tail;
    FlattenAppend(RowItems(rows, init), tail);
    var front, back := Flatten(RowItems(rows, init)), Flatten(tail);
    assert Flatten(RowItems(rows, ks)) == front + back;
    if last == k {
      assert f in back;
    } else {
      assert k in init;
      FlattenRowItemsHas(rows, init, k, f);
      assert f in front;
    }
  }

  /** The reading of lines 443-463 raises on a table where some row whose key
      starts with the query's key holds an element that is not a record's
      dictionary. */
  lemma ReadingRaises(db: CharDb, rows: map<string, Row>, order: seq<string>, query: string, k: string, x: Elem)
    requires IsListing(order, rows) && query != [] && NameKey(db, query).Some?
    requires k in rows && StartsWith(k, NameKey(db, query).value) && x in rows[k].elems && !x.Rec?
    ensures StartswithResult(db, Ready, rows, order, query) == None
  {
    var p := NameKey(db, query).value;
    MatchesComplete(rows, order, p, [], k);
    var ms := Matches(rows, order, p, []);
    RowItemsHas(rows, ms, k, x);
    FromDictsIff(RowItems(rows, ms));
    assert FromDicts(RowItems(rows, ms)) == None;
  }

  /** Finding: search_db_startswith opens TREES_DIR/file_search.db (line
      432), a file no operation of the core creates, so it returns [] for
      every query get_value accepts, whatever the DATA_DIR table holds. */
  lemma StartswithOfMissingDb(db: CharDb, rows: map<string, Row>, order: seq<string>, query: string)
    ensures StartswithResult(db, NoFile, rows, order, query)
      == if query != [] && NameKey(db, query).None? then None else Some([])
  {
  }

  /** Finding, by example: a record build_search_index has stored under a key
      the query leads is not returned as written, though the corrected search
      over the DATA_DIR table returns a record with its path. */
  lemma StartswithMissesIndexedRecord(db: CharDb, es: seq<Entry>, order: seq<string>, query: string, i: nat)
    requires IsListing(order, UpsertAll(map[], es)) && query != [] && NameKey(db, query).Some?
    requires i < |es| && StartsWith(es[i].key, NameKey(db, query).value)
    ensures StartswithResult(db, NoFile, map[], [], query) == Some([])
    ensures var r := StartswithFixed(db, Ready, UpsertAll(map[], es), order, query).value;
      exists j | 0 <= j < |r| :: r[j].filePath == es[i].rec.filePath
  {
    var rows := UpsertAll(map[], es);
    var k := es[i].key;
    StoredIsFlattened(es, i);
    StartswithFixedComplete(db, rows, order, query, k, es[i].rec);
  }

  /** build_search_index into the DATA_DIR database, then
      search_db_startswith, which opens the TREES_DIR database that is still
      missing: the records just indexed are not returned. */
  method StartswithAfterBuild(data: Store, trees: Store, db: CharDb, fileList: array<Option<FileData>>,
                              batchSize: int, query: string)
    returns (ok: bool, r: Option<seq<FileData>>)
    requires data != trees && trees.Valid() && trees.state == NoFile
    modifies data, fileList
    ensures r == if query != [] && NameKey(db, query).None? then None else Some([])
  {
    var reports;
    ok, reports := data.BuildSearchIndex(db, fileList, batchSize);
    r := trees.SearchDbStartswith(db, query, []);
    StartswithOfMissingDb(db, trees.rows, [], query);
  }

  /** Finding: build_search_index stores the second and later records of a
      key as nested arrays, and from_dict raises on a nested array. So were
      search_db_startswith to read the DATA_DIR table that
      build_search_index writes, then once two records share a key it would
      raise for every query that is a prefix of that key. */
  lemma StartswithRaisesOnRepeatedKey(db: CharDb, es: seq<Entry>, order: seq<string>, query: string, k: string)
    requires IsListing(order, UpsertAll(map[], es))
    requires query != [] && NameKey(db, query).Some? && StartsWith(k, NameKey(db, query).value)
    requires |WithKey(es, k)| >= 2
    ensures StartswithResult(db, Ready, UpsertAll(map[], es), order, query) == None
  {
    var rows := UpsertAll(map[], es);
    var w := WithKey(es, k);
    RowOfUpsertAll(map[], es, k);
    var nested := Nest([w[1].rec]);
    assert rows[k].elems[1] == nested;
    ReadingRaises(db, rows, order, query, k, nested);
  }

  /** search_db_startswith as evidently intended: the arrays read the way
      search_db reads them (a nested array one level down, a string element
      passed over), then one record per path. */
  function StartswithFixed(db: CharDb, state: DbState, rows: map<string, Row>, order: seq<string>, query: string)
    : Option<seq<FileData>>
  {
    if query == [] then Some([])
    else match NameKey(db, query)
      case None => None
      case Some(p) =>
        match state
        case NoFile => Some([])
        case NoTable => None
        case Ready => Some(Dedup(Flatten(RowItems(rows, Matches(rows, order, p, [])))))
  }

  /** The corrected search finds, by path, every record of every row whose
      key starts with the query's key. */
  lemma StartswithFixedComplete(db: CharDb, rows: map<string, Row>, order: seq<string>, query: string,
                                k: string, f: FileData)
    requires IsListing(order, rows) && query != [] && NameKey(db, query).Some?
    requires k in rows && StartsWith(k, NameKey(db, query).value) && f in Flatten(rows[k].elems)
    ensures StartswithFixed(db, Ready, rows, order, query).Some?
    ensures var r := StartswithFixed(db, Ready, rows, order, query).value;
      exists j | 0 <= j < |r| :: r[j].filePath == f.filePath
  {
    var p := NameKey(db, query).value;
    var ms := Matches(rows, order, p, []);
    MatchesComplete(rows, order, p, [], k);
    FlattenRowItemsHas(rows, ms, k, f);
    DedupCovers(Flatten(RowItems(rows, ms)), f);
  }

  /** The corrected search returns each path once. */
  lemma StartswithFixedDistinct(db: CharDb, state: DbState, rows: map<string, Row>, order: seq<string>, query: string)
    requires StartswithFixed(db, state, rows, order, query).Some?
    ensures var r := StartswithFixed(db, state, rows, order, query).value;
      forall i, j | 0 <= i < j < |r| :: r[i].filePath != r[j].filePath
  {
    if query != [] && state == Ready {
      DedupProperties(Flatten(RowItems(rows, Matches(rows, order, NameKey(db, query).value, []))));
    }
  }

  /** The corrected search returns only records of rows whose key starts
      with the query's key. */
  lemma StartswithFixedSound(db: CharDb, state: DbState, rows: map<string, Row>, order: seq<string>, query: string,
                             g: FileData)
    requires StartswithFixed(db, state, rows, order, query).Some?
    requires g in StartswithFixed(db, state, rows, order, query).value
    ensures query != [] && state == Ready && NameKey(db, query).Some?
    ensures exists k | k in rows :: StartsWith(k, NameKey(db, query).value) && g in Flatten(rows[k].elems)
  {
    var p := NameKey(db, query).value;
    var ms := Matches(rows, order, p, []);
    var items := RowItems(rows, ms);
    DedupFrom(Flatten(items), g);
    FlattenFrom(items, g);
    var x :| x in items && g in ElemFiles(x);
    RowItemsFrom(rows, ms, x);
    var m :| 0 <= m < |ms| && ms[m] in rows && x in rows[ms[m]].elems;
    assert ms[m] in ms;
    ElemInFlatten(rows[ms[m]].elems, x, g);
  }

  lemma DedupCovers(fs: seq<FileData>, f: FileData)
    requires f in fs
    ensures exists j | 0 <= j < |Dedup(fs)| :: Dedup(fs)[j].filePath == f.filePath
  {
    DedupProperties(fs);
    var i :| 0 <= i < |fs| && fs[i] == f;
  }

  lemma DedupFrom(fs: seq<FileData>, g: FileData)
    requires g in Dedup(fs)
    ensures g in fs
  {
    DedupProperties(fs);
    var i :| 0 <= i < |Dedup(fs)| && Dedup(fs)[i] == g;
  }

  /** Where the search as written does not raise, the corrected one returns
      the same records. */
  lemma StartswithFixedAgrees(db: CharDb, state: DbState, rows: map<string, Row>, order: seq<string>, query: string)
    requires StartswithResult(db, state, rows, order, query).Some?
    ensures StartswithFixed(db, state, rows, order, query) == StartswithResult(db, state, rows, order, query)
  {
    if query != [] && NameKey(db, query).Some? && state == Ready {
      FromDictsIff(RowItems(rows, Matches(rows, order, NameKey(db, query).value, [])));
    }
  }
}
