# Smart-Search name index, modelled in Dafny

Smart-Search finds files and folders by name prefix, and this project models the part of it that does that. The modelled parts are:

- the key normaliser: `check_letters`, `get_value` and `clean_query`, with the symbol and digit tables of `config.py`;
- the file record `FileData` and the trie node `Tree`, including their JSON dictionary forms;
- the in-memory trie registry: one root per character key, `build_trees`, `clear_trees`, `save_trees` and `search_tree` with its lazy load;
- the flat prefix index kept in SQLite: `build_search_index` with its batches, `search_db`, `search_db_startswith`, and the upsert of `index_to_file_search_db`;
- the directory walk of `collect_entries`, and the status of `index_files`;
- `should_skip`, `is_path_in_indexed_paths`, the two `get_file_category` tables, and the decision logic of `auto_index`;
- the two text chunkers: the greedy character-budget one of `auto_index.py` and the sliding word window of `indexing/text_indexer.py`;
- `find_document_files`, the chunk choice of `chunk_and_save`, and the status and progress of `index_documents`.

Modules follow the source files:

| source file | modules |
|---|---|
| `utils/helpers.py` | `Helpers` |
| `config.py` | `Config` |
| `models/data_models.py` | `DataModels` |
| `search/file_search.py` (trie half) | `FileSearch` |
| `search/file_search.py` (SQLite half) | `SearchIndex` |
| `indexing/file_indexer.py` | `FileIndexer` |
| `auto_index.py` | `AutoIndex` |
| `indexing/text_indexer.py` | `TextIndexer` |

Three small modules stand in for the Python built-ins the code relies on:

- `PyString` covers `str.lower`, `str.split`, `" ".join`, `in` and `strip`.
- `PyPath` covers `os.path.basename`, `join`, `splitext`, `abspath`, `commonpath` and `normcase`.
- `DirTree` is the directory tree `os.walk` reads, as a value, with the generic top-down walk with pruning.

`Wrappers` holds `Option`.

Modelling choices:

- **Character database.** Python's Unicode character database (`isalpha`, `lower`, `isspace`) is a record `CharDb` passed in. `ValidDb` requires it to agree with Python on ASCII. Beyond ASCII it is left open, so a non-ASCII letter still counts as alphabetic to `get_value`, as it does in Python.
- **Trie nodes.** A node is a value with its present children in a `map<string, Tree>` keyed by slot name. An absent slot is a child set to `None`. Python never shares a node between two parents, so value semantics loses nothing observable.
- **The registry.** The registry is the class `FileSearch.Registry`. Its fields are:
  - `trees`, the module-level dictionary;
  - `disk`, the saved `<key>tree.json` documents as `json.load` reads them;
  - `loaded`, the keys whose root carries the `_loaded` mark.
- **The SQLite index.** A database file is the class `SearchIndex.Store`. It holds a `DbState` and the `file_index` table as a map from `prefix` to a row. The `DbState` is one of: no file; a file without the table, which is what `sqlite3.connect` leaves at a path it had to create; or the table.

  The core names two such files:
  - `DATA_DIR/file_search.db`, which `build_search_index`, `search_db` and `index_to_file_search_db` use;
  - `TREES_DIR/file_search.db`, the only one `search_db_startswith` opens (search/file_search.py:432). No operation of the core creates it.

  A row's `files_json` array is a sequence of `Elem`:
  - `Rec`, a record dictionary;
  - `Nest`, an array of record dictionaries;
  - `Str`, a JSON string holding the text of a record dictionary.

  The order in which SQLite scans the rows is a parameter `order` that lists every key once. `LIKE key || '%'` is modelled as a starts-with test. `SearchIndex.KeyHasNoWildcard` shows this is exact, because no row key holds `%` or `_`.
- **Raising.** Where the Python code raises, the model returns `None`, or a status of `"error"`.
- **The file system.** The file system is a `DirNode` tree whose entries carry the hidden attribute and accessibility. `os.path.exists`, `isdir` and `isfile` of a listed path are the `Target` of a `PathEntry`.
- **Row keys of dotted and non-ASCII names.**
  - `get_value('.')` is `"dot"`, so `"report.pdf"` has the row key `reportdotpdf`. `Helpers.NameKeyOfDottedName` shows this for `"a.txt"`.
  - `build_search_index` does not call `check_letters`; only `build_trees` does. `é` is alphabetic to `get_value`, so `build_search_index` stores a name such as `résumé.txt` under a key with `é` in it.

## Model

| member | source | states |
|---|---|---|
| Helpers.GetValueOfChar | utils/helpers.py:53-62 | For one character: a letter in Python's sense gives its lower-case form; otherwise a digit gives its DIGIT_MAP name and a symbol its SYMBOL_MAP name. It raises exactly for a non-letter that check_letters rejects. |
| Helpers.GetValueOfAllowed | utils/helpers.py:47-62 | get_value succeeds on every character check_letters accepts. The character and its lower-case form give the same key. |
| Helpers.CharKeyInjective | utils/helpers.py:53-62 | Two accepted characters share a key if and only if they are equal up to ASCII case. |
| Helpers.KeySeq | utils/helpers.py:53-62 | An accepted name has one key per character, each being that character's key. |
| Helpers.KeyOfAppend | search/file_search.py:274-277 | The key of `a + b` is the key of `a` followed by the key of `b`. It raises when either part raises. |
| Helpers.KeyOfAccepted | search/file_search.py:274-277 | An accepted name and its lower-cased form have the same key: their per-character keys joined. |
| Helpers.NameKeyOfAccepted | search/file_search.py:270-277 | Every name check_letters accepts has a row key, its per-character keys joined, so normalisation never raises on it. |
| Helpers.NameKeyOfDot | search/file_search.py:240-277 | The different names "." and "dot" get the same row key "dot". So "each unique filename stored once" does not hold: distinct names share a row. |
| Helpers.NameKeyOfDottedName | search/file_search.py:240-277 | "a.txt" and "adottxt" get the same row key "adottxt". |
| Helpers.KeepAllowed | utils/helpers.py:65-68 | The filter keeps no more characters than it is given, and only accepted ones. |
| Helpers.CleanQuery | utils/helpers.py:65-68 | The cleaned query holds only accepted, lower-case ASCII characters and is no longer than the input. None gives "". |
| Helpers.KeepAllowedAppend | utils/helpers.py:65-68 | Filtering works character by character: the filter of `a + b` is the filter of `a` followed by the filter of `b`. |
| Helpers.KeepAllowedOfAccepted | utils/helpers.py:65-68 | An accepted string passes the filter unchanged. |
| Helpers.CleanQueryAppend | utils/helpers.py:65-68 | clean_query keeps input order: the result for `a + b` is the result for `a` followed by the result for `b`. |
| Helpers.CleanQueryOfChar | utils/helpers.py:65-68 | One character survives, lower-cased, if and only if it is accepted. |
| Helpers.CleanQueryFixedPoints | utils/helpers.py:65-68 | clean_query leaves a string unchanged if and only if check_letters accepts it and it has no capital letter. |
| Helpers.CleanQueryIdempotent | utils/helpers.py:65-68 | Cleaning a cleaned query changes nothing. |
| Helpers.CleanQueryHasKey | utils/helpers.py:53-68 | A cleaned query always has a row key, so a search on it never raises in get_value. |
| Config.SymbolKey | config.py:34-41 | SYMBOL_MAP's keys are exactly VALID_SYMBOLS, none of them a letter or digit. Each value is lower-case letters only, at least two long, so none equals a letter key or holds `%` or `_`. |
| Config.SymbolMapInjective | config.py:35-41 | No two symbols share a name. |
| Config.DigitKey | config.py:42 | DIGIT_MAP's keys are exactly the ten digits, and each maps to "num" followed by the digit. |
| Config.SkipTablesAreLowerCase | config.py:25-31 | Every entry of SKIP_FOLDERS, SKIP_FILES and SKIP_PATTERNS is lower-case ASCII, like the lower-cased names it is compared with. |
| DataModels.NewFileData | models/data_models.py:75-79 | A new record keeps name, path and type, and its length is the length of its name. |
| DataModels.LessThanIsStrictOrderByLength | models/data_models.py:81-82 | `__lt__` is a strict order in which records of equal length are interchangeable: only `length` counts. |
| DataModels.ToDict | models/data_models.py:84-90 | to_dict gives a dictionary with exactly the fields file_name, file_path, file_type and length. |
| DataModels.FromDictOfToDict | models/data_models.py:84-96 | from_dict(to_dict(f)) gives f back, all four fields included. |
| DataModels.FromDictDefaultsLength | models/data_models.py:92-96 | A dictionary without `length` gets the length of its name. |
| DataModels.FromDictNeedsFields | models/data_models.py:92-96 | On the documents the core writes, from_dict needs the three text fields and copies them. |
| DataModels.FilesToDicts | models/data_models.py:42 | The saved list has one dictionary per record, in order. |
| DataModels.FilesFromDicts | models/data_models.py:62 | A loaded list has one record per dictionary, in order, each from_dict of its dictionary. |
| DataModels.FilesFromDictsOfToDicts | models/data_models.py:42-62 | A node's record list survives saving and loading unchanged. |
| DataModels.TreeSymbolMapExtendsConfig | models/data_models.py:11-18 | Tree.SYMBOL_MAP gives every symbol of config's SYMBOL_MAP the same name. |
| DataModels.ReverseMapInvertsSymbols | models/data_models.py:24 | REVERSE_MAP[SYMBOL_MAP[c]] == c for every symbol. |
| DataModels.ReverseMapInvertsDigits | models/data_models.py:24 | REVERSE_MAP[DIGIT_MAP[d]] == d for every digit. |
| DataModels.ReverseMapValues | models/data_models.py:24 | REVERSE_MAP gives back only symbols and digits. |
| DataModels.AcceptedKeysAreSlots | models/data_models.py:11-36 | The key get_value gives any accepted ASCII character names a child slot of every node. |
| DataModels.SlotsAreNotFieldNames | models/data_models.py:64-68 | No slot is called "value" or "files", so from_dict never mistakes a child for a field. |
| DataModels.NewTree | models/data_models.py:26-36 | A new node has the given value, no records and every slot empty. |
| DataModels.TreeToDict | models/data_models.py:38-56 | The document holds the value and the saved record list. |
| DataModels.TreeToDictChildren | models/data_models.py:45-56 | Besides value and files, the document holds exactly one entry per present child in a slot, that child's document. |
| DataModels.TreeFromDict | models/data_models.py:58-69 | A loaded node has the document's value. Its children are exactly the document's dictionary-valued entries other than value and files. Values of types the core never writes give None. |
| DataModels.TreeFromDictOfToDict | models/data_models.py:38-69 | A node whose children sit in slots comes back from to_dict and from_dict unchanged: value, records and children, recursively. |
| DataModels.TreeFromDictOfParts | models/data_models.py:58-69 | A document whose records and children all load gives the node made of them. |
| DataModels.ChildKeysOfToDict | models/data_models.py:45-69 | The children from_dict finds in a node's document are that node's children. |
| FileSearch.NamesAreTableValues | search/file_search.py:16-21 | Every symbol and digit name is one of the registry's keys. |
| FileSearch.FreshTrees | search/file_search.py:16-21 | The registry has exactly the letters, the digit names and the symbol names as keys. |
| FileSearch.FreshTreesRooted | search/file_search.py:16-21 | The fresh registry has a root for every accepted character, each an empty node named by its key. |
| FileSearch.CharKeyIsRoot | search/file_search.py:106-107 | The key of an accepted first character is a registry key, so the root lookup never fails. |
| FileSearch.CharKeyIsSlot | search/file_search.py:113-119 | The key of an accepted character names a child slot. |
| FileSearch.InsertRecord | search/file_search.py:101-126 | Inserting a record keeps the registry's keys. |
| FileSearch.InsertAll | search/file_search.py:101-129 | Inserting a list of records keeps the registry's keys. |
| FileSearch.FirstEmpty | search/file_search.py:105-106 | The position of the first empty name, where build_trees raises: every name before it is non-empty. |
| FileSearch.ReportsExact | search/file_search.py:128-129 | Progress is reported in increasing order, exactly at every hundredth index whose record gets past the check and has two or more characters. |
| FileSearch.NodeFilesOfInsertAlong | search/file_search.py:113-126 | The walk adds the record once to each node along its key path below the root, creating missing nodes; all other nodes are left as they are. |
| FileSearch.RegFilesOfInsertRecord | search/file_search.py:101-126 | Inserting one record appends it to exactly the nodes it hits. A one-character name hits its root only; a longer name hits depths 1 to n-1; a rejected name hits none. |
| FileSearch.RegFilesOfInsertAll | search/file_search.py:101-129 | After a list of insertions, each node holds its old records followed by the records that hit it, in input order. |
| FileSearch.KeySeqPrefixIff | search/file_search.py:105-114 | For accepted strings, p's key path starts n's key path if and only if n starts with p up to ASCII case. |
| FileSearch.HitsByName | search/file_search.py:105-126 | A record reaches the node of an accepted prefix if and only if its name is accepted and starts with the prefix up to case. For a name of two or more characters the prefix must also be at least two long. |
| FileSearch.HitsNeedsLength | search/file_search.py:113-126 | No record reaches a node deeper than its name is long. |
| FileSearch.HitsOfLongName | search/file_search.py:113-126 | A name of two or more characters reaches exactly the nodes at depths 2 to n of its own key path, counting the root as depth 1. |
| FileSearch.HitsOfOneChar | search/file_search.py:109-111 | A one-character name reaches only its root. |
| FileSearch.BuiltRegistry | search/file_search.py:96-129 | In a registry built from scratch, each node holds exactly, in input order, the records that hit it. |
| FileSearch.RegFilesOfFresh | search/file_search.py:21 | The fresh registry holds no records anywhere. |
| FileSearch.InsertAllWellSlotted | search/file_search.py:113-126 | Insertion puts children in slots only, so to_dict saves every child. |
| FileSearch.FreshTreesWellSlotted | search/file_search.py:21 | The fresh roots have no children outside slots. |
| FileSearch.GetValueOfLowered | search/file_search.py:138 | get_value of a lower-cased accepted character is its key. |
| FileSearch.WalkOfAccepted | search/file_search.py:152-158 | For an accepted rest of the prefix, the walk never raises and returns the records at the node the key path reaches. A missing child gives []. |
| FileSearch.LazyLoad | search/file_search.py:141-147 | The lazy load changes at most the prefix's root and at most adds that key to the load marks. |
| FileSearch.SearchIsWalk | search/file_search.py:132-158 | For an accepted prefix, search_tree lazily loads the prefix's root and walks it over the remaining characters. |
| FileSearch.SearchOfAccepted | search/file_search.py:132-158 | For an accepted prefix, search_tree returns the records at the prefix's node in the registry as the lazy load leaves it. No other root is touched. |
| FileSearch.SearchWithoutDocumentsKeepsTrees | search/file_search.py:141-147 | With no saved documents, search_tree leaves the registry as it was. |
| FileSearch.MatchingMembers | search/file_search.py:101-126 | The reference result holds exactly the records whose names are accepted and start with the prefix up to case. |
| FileSearch.HitsOfIsMatching | search/file_search.py:101-126 | For an accepted prefix of two or more characters, the records reaching its node are exactly the matching ones, in order. |
| FileSearch.SearchOfBuilt | search/file_search.py:96-158 | On a registry built from scratch, search_tree of an accepted prefix of two or more characters returns exactly the records whose names start with it, in input order. |
| FileSearch.Saved | search/file_search.py:84-93 | save_trees adds a document for exactly the roots that hold records of their own, and keeps the others on disk. |
| FileSearch.SavedAll | search/file_search.py:84-93 | The corrected save writes a document for every root. |
| FileSearch.Cleared | search/file_search.py:76-81 | clear_trees keeps every key, and gives each an empty root. |
| FileSearch.ClearedRooted | search/file_search.py:76-81 | After the clear, every accepted character still has a root. |
| FileSearch.LoadAfterSaveAll | search/file_search.py:24-40 | A root saved by the corrected save loads back as itself. |
| FileSearch.SearchLoadsClearedRoot | search/file_search.py:141-147 | On an unmarked root with no records, search_tree installs the saved document of that root. |
| FileSearch.SearchAfterSaveAllAndClear | search/file_search.py:76-158 | With the corrected save, searching after clear_trees finds what searching before it found. |
| FileSearch.SavedSkipsEmptyRoot | search/file_search.py:86-87 | A root without records of its own and without an earlier document is not written. |
| FileSearch.SearchOfUnloadableRoot | search/file_search.py:141-158 | When a root's document is missing or does not load, search_tree walks the root as it is. |
| FileSearch.RootOfLongNameIsNotSaved | search/file_search.py:84-126 | Inserting a name of two or more characters leaves its root without records, so save_trees does not write that root. |
| FileSearch.SearchOfOneRecordFinds | search/file_search.py:96-158 | A registry built from one record of two or more characters finds it under its whole name. |
| FileSearch.SearchOfOneRecordAfterSaveAndClear | search/file_search.py:76-158 | After save_trees as written and clear_trees, that registry no longer finds the record. |
| FileSearch.SearchAfterSaveAndClearOfBareRoot | search/file_search.py:76-158 | Take a root with no records and no earlier document. After save_trees as written and clear_trees, a search of two or more characters through it finds nothing. |
| FileSearch.SearchAfterSaveAndClearLosesRecords | search/file_search.py:84-93 | Index the single file "ab" and searching "ab" finds it; after save_trees as written and clear_trees, the same search finds nothing. |
| FileSearch.Registry.constructor | search/file_search.py:13-21 | Module load: one empty root per key, no load marks, and the documents already on disk. |
| FileSearch.Registry.ClearTrees | search/file_search.py:76-81 | clear_trees: every root is replaced by an empty one, no mark remains, and disk is unchanged. |
| FileSearch.Registry.SaveTrees | search/file_search.py:84-93 | save_trees: disk gains the documents of the roots with records of their own; the registry is unchanged. |
| FileSearch.Registry.SaveAllTrees | search/file_search.py:84-93 | The corrected save_trees: disk gains the document of every root. |
| FileSearch.Registry.Insert | search/file_search.py:101-126 | One pass of build_trees on a record with a name: the registry becomes the insertion of that record. |
| FileSearch.Registry.BuildTrees | search/file_search.py:96-129 | build_trees succeeds if and only if no name is empty. The registry receives the records before the first empty name, in order, together with their progress reports. |
| FileSearch.Registry.SearchTree | search/file_search.py:132-158 | search_tree: its result, registry and load marks are those of the search function; disk is unchanged. |
| SearchIndex.CategoryOf | search/file_search.py:175-190 | The category of a lower-cased type is one of the seven categories. |
| SearchIndex.GetFileCategory | search/file_search.py:164-190 | get_file_category always returns one of image, video, audio, archive, document, folder or file. |
| SearchIndex.CategoryOfIff | search/file_search.py:177-190 | Each category is chosen exactly by its own table, and "file" exactly by the types no table lists. |
| SearchIndex.GetFileCategoryIgnoresCase | search/file_search.py:175 | ASCII types equal up to case get the same category. |
| SearchIndex.GetFileCategoryDefault | search/file_search.py:175-190 | A type is put in "file" if and only if its lower-cased form is in no table and is not "folder". |
| SearchIndex.NormaliseKey | search/file_search.py:270-277 | The key loop computes get_value over each character of the lower-cased name, joined, and raises where get_value raises. |
| SearchIndex.KeyHasNoWildcard | search/file_search.py:369-376 | The row key of an accepted name holds neither `%` nor `_`, so `LIKE key%` is a plain starts-with test. |
| SearchIndex.UpsertAllAppend | search/file_search.py:287-314 | Running one batch after another leaves the table that running all the upserts in order leaves, so the batch size changes nothing. |
| SearchIndex.RowOfUpsertAll | search/file_search.py:284-313 | Take the upserts with key k. If k existed, its existing row gains one nested element per upsert. If k is new, the first upsert's extension, category and record make the row and the later ones each add a nested element. Other keys are untouched. |
| SearchIndex.IndexUpsertExisting | search/file_search.py:290-295 | A conflict appends `[rec]` to the row and keeps its extension and category. |
| SearchIndex.FlattenOfNests | search/file_search.py:390-400 | The nested elements conflicts append flatten back to their records, in order. |
| SearchIndex.FilesOfNewRow | search/file_search.py:284-295 | A row build_search_index creates holds, flattened, exactly the records stored under its key, in order. |
| SearchIndex.UpsertAllKeepsSingletonNests | search/file_search.py:284-313 | Every nested element the index writes holds exactly one record. |
| SearchIndex.EntryOf | search/file_search.py:266-285 | A record gets an upsert if and only if its name has a row key; the upsert carries that key and the record. |
| SearchIndex.FirstFailure | search/file_search.py:266-277 | The first slot that raises is within the list. |
| SearchIndex.FirstFailureIsFirst | search/file_search.py:266-277 | No slot before it raises, and it raises when it is inside the list. |
| SearchIndex.IndexReportsExact | search/file_search.py:302-304 | Progress is reported in increasing order, exactly at the hundredth indices of records that are not passed over. |
| SearchIndex.BatchSize | search/file_search.py:288 | The batch size in effect is at least one, since a batch is flushed as soon as it is not below the size. |
| SearchIndex.Flushed | search/file_search.py:287-297 | No more upserts reach the table than were prepared. |
| SearchIndex.FlushedOfBatches | search/file_search.py:287-297 | When the prepared upserts are whole batches plus fewer than one batch, the whole batches are those flushed. |
| SearchIndex.PrepareEntry | search/file_search.py:266-285 | Preparing a slot raises exactly when the slot is None or its name has no key; otherwise it gives the record's upsert. |
| SearchIndex.Store.constructor | search/file_search.py:353-355 | Before anything writes it, a database path holds no file and no row. |
| SearchIndex.Store.InitiateDb | search/file_search.py:193-233 | initiate_db leaves the file with its table. An existing table is kept as it is; otherwise the table is empty. |
| SearchIndex.Store.ExecuteMany | search/file_search.py:290-296 | executemany with commit applies the batch's upserts in order. |
| SearchIndex.Store.Push | search/file_search.py:283-297 | One record joins the pending batch. A full batch is flushed, so the flushed upserts are always whole batches and the pending batch is below the size. |
| SearchIndex.Store.BuildSearchIndex | search/file_search.py:236-317 | The database ends with its table, starting from the existing table or an empty one. It succeeds if and only if no slot raises. Otherwise the table holds the sequential upserts of the records before the first raising slot, on failure only those of the batches already flushed. The processed slots are cleared to None, and progress is reported at every hundredth index. |
| SearchIndex.Store.Step | search/file_search.py:266-304 | One turn of the loop either stops at a raising slot with the outcome above, or keeps the loop invariant for the next slot. |
| SearchIndex.Store.Flush | search/file_search.py:306-314 | The last partial batch is applied after the flushed ones. |
| SearchIndex.Store.Accept | search/file_search.py:270-304 | A prepared record is batched and its slot cleared. |
| SearchIndex.Store.SearchDb | search/file_search.py:320-406 | search_db returns the search_db result function of the table as it is. |
| SearchIndex.Store.SearchDbStartswith | search/file_search.py:409-465 | search_db_startswith returns the startswith result function of the database it is called on, the TREES_DIR one. |
| SearchIndex.StartswithOfMissingDb | search/file_search.py:420-436 | With no file at the path it opens, search_db_startswith returns []. It raises only where get_value rejects the query. |
| SearchIndex.StartswithAfterBuild | search/file_search.py:236-436 | After build_search_index has written the DATA_DIR database, search_db_startswith reads the TREES_DIR one, which is still missing, and returns []. |
| SearchIndex.StartswithMissesIndexedRecord | search/file_search.py:432 | A record `build_search_index` stored under a key the query leads is not returned as written (the result is []), though the corrected search over the DATA_DIR table returns a record with its path. |
| SearchIndex.StoredIsFlattened | search/file_search.py:284-295 | Every prepared record lies in its key's row, one nesting level flattened. |
| SearchIndex.Matches | search/file_search.py:361-376 | Every selected row exists, its key starts with the pattern, and its category is in the filter when the filter is non-empty. |
| SearchIndex.MatchesComplete | search/file_search.py:361-376 | Every row the WHERE clause admits is selected. |
| SearchIndex.Take | search/file_search.py:367-376 | LIMIT n keeps a prefix of the rows, at most n of them, and all of them for a negative n or when there are no more than n. |
| SearchIndex.ScanIsPrefix | search/file_search.py:386-406 | The loop returns a prefix of the flattened records, all of them when it does not stop early. |
| SearchIndex.ScanComplete | search/file_search.py:386-406 | With fewer records than the limit, nothing is cut. |
| SearchIndex.ScanBound | search/file_search.py:402-404 | With at most one record per element and a positive limit, the loop returns at most `limit` records. |
| SearchIndex.ScanNegativeLimit | search/file_search.py:402-404 | With a negative limit the loop stops after the first element. |
| SearchIndex.ScanStopped | search/file_search.py:402-404 | Once the loop has stopped, further elements change nothing. |
| SearchIndex.SearchDbSound | search/file_search.py:340-406 | Every record search_db returns comes from a row whose key starts with the normalised query and whose category passes the filter. A result needs a non-empty query and a database holding the table. |
| SearchIndex.SearchDbBound | search/file_search.py:340-406 | On tables the writers leave, search_db returns at most `limit` records for a limit of 0 or more. |
| SearchIndex.SearchDbComplete | search/file_search.py:340-406 | When the limit exceeds both the matching rows and their records, search_db returns all those records row by row, one nesting level flattened. |
| SearchIndex.SearchDbNegativeLimit | search/file_search.py:367-404 | A negative limit returns only the records of the first element of the first matching row. |
| SearchIndex.ScanRows | search/file_search.py:386-406 | The loop over the selected rows returns the scan of their elements. |
| SearchIndex.ScanRow | search/file_search.py:391-404 | The inner loop over one row's elements continues the scan and stops where it stops. |
| SearchIndex.FromDictsIff | search/file_search.py:457-463 | from_dict succeeds on every element exactly when every element is a record dictionary, and then gives the flattened records. |
| SearchIndex.DictOfWellFormed | search/file_search.py:456-463 | The dictionary has each path once as a key, exactly the paths read. |
| SearchIndex.DictOfEntries | search/file_search.py:463 | Each entry is the last record read with its path. |
| SearchIndex.DictOfOrder | search/file_search.py:456-465 | The paths are in the order of their first records. |
| SearchIndex.DedupProperties | search/file_search.py:456-465 | The result holds every path read, each once, with the last record read for that path, in order of first appearance. |
| SearchIndex.CollectRows | search/file_search.py:456-463 | The loop over the rows fails where from_dict fails; otherwise it builds the dictionary of the records read. |
| SearchIndex.CollectRow | search/file_search.py:458-463 | The inner loop over one row's elements continues the dictionary, failing where from_dict fails. |
| SearchIndex.StartswithRaisesOnRepeatedKey | search/file_search.py:459-461 | Read against the DATA_DIR table that build_search_index writes, the loop of lines 456-463 raises once two records share a key, for every query that is a prefix of that key. |
| SearchIndex.StartswithFixedComplete | search/file_search.py:409-465 | The corrected search finds, by path, every record of every row whose key starts with the query's key. |
| SearchIndex.StartswithFixedDistinct | search/file_search.py:456-465 | The corrected search returns each path once. |
| SearchIndex.StartswithFixedSound | search/file_search.py:443-465 | The corrected search returns only records of rows whose key starts with the query's key. |
| SearchIndex.StartswithFixedAgrees | search/file_search.py:409-465 | Wherever the search as written does not raise, the corrected one returns the same records. |
| FileIndexer.FileKind | indexing/file_indexer.py:40 | The recorded type of a file is never empty. |
| FileIndexer.FileKindOfAscii | indexing/file_indexer.py:40 | For an ASCII name with an extension, the type is the extension lower-cased, without its dot. |
| FileIndexer.FileKindWithoutExtension | indexing/file_indexer.py:40 | A name without an extension gets the type "unknown". |
| FileIndexer.TrailingDotKinds | indexing/file_indexer.py:40 | A name ending in a dot, such as "a.", gets the type "unknown" from collect_entries but "" from auto_index. |
| FileIndexer.CollectEntries | indexing/file_indexer.py:9-43 | collect_entries returns the records of the top-down walk with pruning. |
| FileIndexer.Visit | indexing/file_indexer.py:16-41 | One round of the walk keeps what is collected plus what is still to come, and shrinks the directories left to visit. |
| FileIndexer.ScanDirs | indexing/file_indexer.py:17-31 | The loop over `dirs` appends a folder record for each subdirectory kept, and keeps exactly those for the walk. |
| FileIndexer.ScanFiles | indexing/file_indexer.py:33-41 | The loop over `files` appends a record for each file kept. |
| FileIndexer.FolderRecordsIff | indexing/file_indexer.py:18-29 | A folder record is made exactly for each subdirectory that is not hidden, is accessible, is not in SKIP_FOLDERS and holds no skip pattern, with the type "folder". |
| FileIndexer.FileRecordsIff | indexing/file_indexer.py:33-41 | A file record is made exactly for each file that is not hidden, is accessible and is not in SKIP_FILES. The skip patterns play no part. |
| FileIndexer.CollectedFrom | indexing/file_indexer.py:16-31 | Every collected record is a directory's own record or lies under a kept subdirectory; nothing below a pruned one is collected. |
| FileIndexer.CollectedIff | indexing/file_indexer.py:16-41 | collect_entries records exactly the records made at the directories reached through kept subdirectories. |
| FileIndexer.CollectedNamed | indexing/file_indexer.py:16-41 | Every record collected from a real listing has a non-empty name. |
| FileIndexer.TmpFileIsCollected | indexing/file_indexer.py:33-38 | A visible, accessible file named "tmp" is collected, but auto_index's should_skip skips it. |
| FileIndexer.IndexFiles | indexing/file_indexer.py:47-104 | On success the result is "success" with the number of entries collected, the rejected ones included; disk gains the saved roots; every root is cleared and no mark remains. Where build_trees raises, the result is an error with count 0. |
| FileIndexer.IndexFilesSucceeds | indexing/file_indexer.py:63-95 | On a real listing index_files succeeds. |
| DirTree.WalkComplete | indexing/file_indexer.py:16-31 | Every record made at a directory the walk reaches is a record of the walk. |
| DirTree.WalkSound | indexing/file_indexer.py:16-31 | Every record of the walk was made at a directory the walk reaches. |
| DirTree.WalkSilent | indexing/text_indexer.py:46-54 | A walk that starts where nothing is recorded, and where nothing is recorded anywhere below, records nothing. |
| AutoIndex.HasValidCharactersIsCheckLetters | auto_index.py:53-56 | has_valid_characters accepts exactly the names check_letters accepts. |
| AutoIndex.ShouldSkipIff | auto_index.py:59-80 | should_skip holds if and only if one of these holds: the lower-cased basename is in SKIP_FILES; it is a folder in SKIP_FOLDERS; it holds a skip pattern; the path is hidden; the path is inaccessible. |
| AutoIndex.ShouldSkipTmpFile | auto_index.py:72-74 | The skip patterns apply to files: a visible, accessible file "/tmp" is skipped. |
| AutoIndex.CommonPathIsIndexedIff | auto_index.py:104-112 | For one indexed path, the commonpath test holds exactly when that path is the file or one of its ancestors, component by component after normcase. It is false across drives. |
| AutoIndex.IsPathInIndexedPathsIff | auto_index.py:96-114 | is_path_in_indexed_paths holds if and only if some indexed path is the file or an ancestor of it, so it never holds for an empty list. |
| AutoIndex.AutoCategoryOf | auto_index.py:122-137 | The category of a lower-cased type is one of the seven categories. |
| AutoIndex.AutoFileCategory | auto_index.py:117-137 | auto_index's get_file_category always returns one of the seven categories. |
| AutoIndex.AutoFileCategoryIff | auto_index.py:117-137 | An empty type is a "file". Otherwise each category is chosen exactly by its own table, in order, and "file" by the types no table lists. |
| AutoIndex.CategoriesAgree | auto_index.py:117-137 | The two get_file_category functions agree on every type except tiff, wmv, flv, webm, aac, ogg, image, video and audio. |
| AutoIndex.TiffCategoriesDiffer | auto_index.py:126 | "tiff" is an image to auto_index only. |
| AutoIndex.ImageCategoriesDiffer | auto_index.py:126 | The type "image" is an image to search/file_search.py only. |
| AutoIndex.AutoEntry | auto_index.py:151-160 | The upsert carries the name's row key, the lower-cased type or "unknown", auto_index's category and the record. |
| AutoIndex.Connected | auto_index.py:146-166 | A name that passes the check reaches `sqlite3.connect`, which creates a missing file without the table. A table is never created here, and a rejected name leaves the path as it was. |
| AutoIndex.IndexToFileSearchDb | auto_index.py:140-185 | An invalid name, or a database without the table, gives False with the table unchanged. For a valid name a missing file is left existing but empty. Otherwise the call gives True and the table receives the upsert. |
| AutoIndex.SearchDbAfterConnect | auto_index.py:166-185 | After that call on a missing database, search_db raises on every query with a key (search/file_search.py:353-378). |
| AutoIndex.AutoUpsertExisting | auto_index.py:170-175 | On an existing key the upsert appends the record and keeps extension, category and every other row. |
| AutoIndex.AutoIndexedRecordNotFound | auto_index.py:170-175 | A record auto_index stores under a new key is not among what search_db returns. |
| AutoIndex.AutoIndexedRowBreaksStartswith | auto_index.py:170-175 | Read against the DATA_DIR table auto_index writes, the loop of search/file_search.py:456-463 raises for every query that prefixes a new key. |
| AutoIndex.AutoUpsertFixedIsFound | auto_index.py:170-175 | Under the corrected upsert the record is in its row, and search_db with a large enough limit finds it. |
| AutoIndex.ChunkText | auto_index.py:299-319 | The greedy loop returns the joined word groups of the reference fold. |
| AutoIndex.GreedyFoldInv | auto_index.py:306-314 | The loop's state spells the words so far, has no empty chunk, fits the budget and closes only full chunks. |
| AutoIndex.GreedyGroupsCover | auto_index.py:299-319 | The chunks' words, one after another, are `text.split()`. No chunk is empty, and there are no chunks exactly when there are no words. |
| AutoIndex.GreedyGroupsFit | auto_index.py:306-314 | Every chunk of two or more words fits the budget, and each chunk but the last would exceed it with the next word. |
| AutoIndex.ChunkTextWords | auto_index.py:299-319 | Splitting a chunk string gives back its words, and a chunk of two or more words is shorter than chunk_size. |
| AutoIndex.AutoRecord | auto_index.py:396-413 | The record has the path's basename as its name, the path, and the name's length. |
| AutoIndex.AutoKindOfAscii | auto_index.py:399-404 | For an ASCII file name with an extension, the type is the extension lower-cased, without its dot. |
| AutoIndex.AutoKindOfFolder | auto_index.py:399-401 | A folder's type is "folder". |
| AutoIndex.EmbeddingFor | auto_index.py:421-439 | The image step runs exactly for an image extension inside an indexed image path. The text step runs exactly for a non-image document extension inside an indexed document path. |
| AutoIndex.AutoIndex | auto_index.py:372-445 | A missing or skipped path gives False and leaves the database as it was. Otherwise the database is left as index_to_file_search_db leaves it, the record is upserted, and the answer is the upsert's success AND-ed with the embedding step's success where one runs. |
| AutoIndex.IndexPath | auto_index.py:395-445 | The part after the early returns: the record, its upsert, and the answer. |
| TextIndexer.StepsBound | indexing/text_indexer.py:89 | The number of window starts is ceil(n / step): the least count of steps reaching n. |
| TextIndexer.ChunkText | indexing/text_indexer.py:86-93 | chunk_text returns the sliding-window reference: None where range raises on a zero step, [] for a negative step. |
| TextIndexer.WindowChunks | indexing/text_indexer.py:89-92 | The loop over the starts 0, step, 2 step, ... returns the windows' chunks in order. |
| TextIndexer.AddWindow | indexing/text_indexer.py:90-92 | One pass joins the window from i and keeps it unless blank, keeping the loop invariant. |
| TextIndexer.ChunkOfWord | indexing/text_indexer.py:90-92 | A window that starts at a word is never blank, so it is always kept. |
| TextIndexer.ChunkCount | indexing/text_indexer.py:89-92 | With 0 < size and overlap < size, n words give Steps(n, size - overlap) chunks, which StepsBound shows is ceil(n / (size - overlap)). |
| TextIndexer.ChunkAt | indexing/text_indexer.py:86-93 | Chunk k is the words from k(size - overlap) to k(size - overlap) + size joined by spaces. Its words come back under split, at most size of them. |
| TextIndexer.WindowWords | indexing/text_indexer.py:90 | A window's chunk splits back into the window, and holds at most size words. |
| TextIndexer.WordCovered | indexing/text_indexer.py:89-92 | With 0 <= overlap < size, every word lies in some chunk. |
| TextIndexer.WordInChunk | indexing/text_indexer.py:89-92 | Word j lies in chunk k when j falls in k's run of the step, so the chunks follow text order. |
| TextIndexer.NegativeOverlapSkips | indexing/text_indexer.py:89-92 | A step larger than the window skips words: with size 1 and overlap -1, "a b" gives only "a". |
| TextIndexer.ChunksToSaveNothing | indexing/text_indexer.py:104-112 | A failed extraction or an empty text stores nothing. |
| TextIndexer.ChunksToSaveShort | indexing/text_indexer.py:115 | A text of at most 1000 words is stored whole, as one chunk. |
| TextIndexer.ChunksToSaveLong | indexing/text_indexer.py:115 | A longer text is stored as chunk_text gives it: ceil(n / 900) chunks, at least two, chunk k being the 1000-word window from word 900k. |
| TextIndexer.FindDocumentFiles | indexing/text_indexer.py:31-61 | find_document_files returns, path by path in order, the documents of each listed path. |
| TextIndexer.WalkDocuments | indexing/text_indexer.py:46-59 | The os.walk loop returns the top-down walk over every subdirectory. |
| TextIndexer.ScanDocuments | indexing/text_indexer.py:56-59 | The loop over `files` returns the joined paths of the files with a document extension. |
| TextIndexer.DocumentsIff | indexing/text_indexer.py:37-61 | A path is found if and only if one of the listed paths contributes it. |
| TextIndexer.DocsOfFile | indexing/text_indexer.py:38-44 | A listed file is found if and only if its extension is a document extension. A missing path, or one that is neither a file nor a directory, contributes nothing. |
| TextIndexer.DocsOfDirIff | indexing/text_indexer.py:45-59 | Under a listed directory, a path is found if and only if it is found at some directory of the tree. |
| TextIndexer.DocsAtIff | indexing/text_indexer.py:47-59 | A path is found at a directory if and only if that directory's lower-cased path holds none of the skipped words or skip patterns, and the path joins it to one of its files with a document extension. |
| TextIndexer.DocsInIff | indexing/text_indexer.py:56-59 | The documents listed at a directory are the joined paths of its files with a document extension. |
| TextIndexer.SkippedBelow | indexing/text_indexer.py:48-54 | Every path below a skipped directory is skipped too. |
| TextIndexer.SkippedSubtreeEmpty | indexing/text_indexer.py:46-54 | Nothing is found under a skipped directory, although os.walk still descends into it. |
| TextIndexer.DocNameOfJoin | indexing/text_indexer.py:57-59 | A listed file keeps its extension when joined to its directory. |
| TextIndexer.DocsOfSound | indexing/text_indexer.py:37-59 | Everything found has a document extension. |
| TextIndexer.IndexDocuments | indexing/text_indexer.py:144-214 | The possible outcomes are: error with count 0 and no progress for an empty or missing path list; error with an error call when the store cannot be created; warning with count 0 after the scanning call when no document is found. Otherwise the result is success with the number of documents found, the full progress sequence, and each document's chunks handed to the store. |
| TextIndexer.IndexEach | indexing/text_indexer.py:188-192 | The loop makes one indexing call per document and hands each document's chunks to the store, in order. |
| TextIndexer.SavesAt | indexing/text_indexer.py:188-189 | There is one chunk list per document, each being the one chunk_and_save stores for it. |
| TextIndexer.TicksAt | indexing/text_indexer.py:191-192 | The indexing calls count the documents from 1 to i. |
| TextIndexer.RunProgressShape | indexing/text_indexer.py:169-196 | The calls are one scanning call, then n + 1 indexing calls with current 0 to n, then one complete call. |

## Left out

- Disk and database I/O:
  - file reads and writes, `json.dump` and `json.load` as text, and SQLite itself (connections, WAL pragmas and index creation);
  - the saved documents are JSON values, and the table is a map;
  - the JSON text form is not modelled, and neither are corrupt files.
- SQLite's scan order: a parameter listing each key once. `LIMIT` with a negative value is read as no limit, as SQLite reads it.
- The floating-point numbers a JSON document may hold: the JSON datatype has none.
- `print` output, and the `message` texts of the result and progress dictionaries: results keep `status` and `count`, and progress calls keep stage, current and total.
- The `progress_callback` calls of `index_files` are left out, since they only pass texts to the UI. Those of `build_trees`, `build_search_index` and `index_documents` are modelled as the sequence of reported values.
- The `timeit` decorator: it only prints timing.
- `load_trees`: it is not called by the name-index core; `load_tree` is modelled as the lookup of a saved document.
- `is_hidden` on Windows and `is_accessible`: the Windows hidden attribute and accessibility are given per entry. The non-Windows rule is modelled, and it is the only case where the name counts: a basename starting with a dot is hidden.
- `os.walk` details:
  - A directory whose listing fails is modelled as an empty listing. This is what `onerror=lambda e: None` gives for the subtree.
  - Symbolic links are not modelled.
  - Sorting is not modelled either, since the walk keeps listing order.
- `os.path.abspath`: paths are taken already absolute (the `AbsPath` datatype), so `..` and the current directory are not modelled.
- The embedding half of `auto_index`:
  - `index_image`, `index_document`, `extract_text_from_file`, `index_to_file_data_json` and `get_indexed_paths` are given as their outcomes: the `imageOk` and `documentOk` parameters and the `IndexedPaths` value.
  - CLIP and sentence-transformer models, PDF and DOCX parsing, and float vectors are not modelled.
- Names that config.py does not define. auto_index.py:35-39 imports `FILE_SEARCH_DB`, `IMAGE_EMBEDDINGS_DB`, `TEXT_EMBEDDINGS_DB`, `VALID_DOCUMENT_EXTENSIONS`, `TEXT_SEARCH_MODEL` and `INDEXED_PATHS_JSON`. indexing/text_indexer.py:9 imports `TEXT_EMBEDDINGS_DB`, `TEXT_SEARCH_MODEL` and `VALID_DOCUMENT_EXTENSIONS`. config.py defines none of them, so as written both modules fail with ImportError before any of their functions can run. The model gives both their behaviour once the names exist:
  - `VALID_DOCUMENT_EXTENSIONS` is the parameter `docExts`;
  - `FILE_SEARCH_DB` is taken to be the DATA_DIR database that `build_search_index` writes.
- SearchIndex.StartswithAfterBuild: takes the TREES_DIR database as missing, since no operation of the core creates it. A file put there by other means is read by `SearchIndex.Store.SearchDbStartswith` like any database.
- DataModels.FromDictNeedsFields: the model's from_dict also gives None where Python would carry along a name, path or type that is not a string, or a length that is not a number. Where the name has no `len()`, Python raises too. The core writes only strings and numbers there.
- DataModels.TreeFromDict: the model also gives None for a value that is not a string, a "files" entry that is not an array, and a files item that is not a record's dictionary. Python keeps such an item as it is. The core never writes these.
- `chunk_and_save`:
  - the embeddings and the database writes are left out;
  - `extract_text` is a parameter `extract` that gives the stripped text, or None where it raises;
  - `init_db` raising is `storeOk`;
  - the other exceptions `index_documents` catches are not modelled.
- `cosine_similarity`, `embed_text` and the search side of the embedding stores: floating point and ML models.
- The UI (GUI.py, Htmlgui.py, api/backend_api.py), images.py, the placeholder indexers and searches, and the legacy files main.py, models.py and tools.py.
- Exceptions other than those modelled: a missing `file_name` attribute is modelled (a `None` slot in `build_search_index`), while memory errors and interrupts are not.
- DataModels.NewTree: the 60 child slots are the set `TreeSlots`, and a new node's empty slots are an empty child map; the slot count itself is not stated.
- FileSearch.Registry.BuildTrees: the progress reports are the indices only, not the `(idx, total)` pairs, since `total` is the list length throughout.
- SearchIndex.SearchDbBound: the bound is stated for tables whose nested elements hold one record each. Both writers are proved to keep that (UpsertAllKeepsSingletonNests); a table written by other programs is not covered.

## Findings

| source | as written | input that shows it | evidently intended | confidence | as-written member | corrected member |
|---|---|---|---|---|---|---|
| search/file_search.py:432 | `search_db_startswith` opens `TREES_DIR/file_search.db`. The core writes its index to `DATA_DIR/file_search.db` (lines 196, 255), and nothing creates the TREES_DIR file, so the function prints "Database not found" and returns []. | `build_search_index` on one record "a.txt", then `search_db_startswith("a")` gives [] | Open the DATA_DIR database, as `search_db` does (line 351), and return the records stored under the keys the query leads | high, not executed | SearchIndex.StartswithMissesIndexedRecord | SearchIndex.StartswithFixedComplete |
| search/file_search.py:459-461 | Once line 432 opens the DATA_DIR database, the loop calls `FileData.from_dict` on every element of `files_json`. The second and later records of a key are stored as nested arrays (lines 284, 294), and `from_dict` raises on them. | With line 432 pointing at `DATA_DIR/file_search.db`: `build_search_index` on two records named "a.txt" in different folders, then `search_db_startswith("a")` | Read the arrays as `search_db` does, one nesting level flattened, and return one record per path | medium: shows only once line 432 is corrected; not executed | SearchIndex.StartswithRaisesOnRepeatedKey | SearchIndex.StartswithFixedComplete |
| search/file_search.py:84-93 | `save_trees` writes only roots whose own `files` is non-empty. Only one-character names are stored at a root (lines 109-111), so longer names are never saved. After `index_files` clears the trees, `search_tree` lazily loads nothing for them. | Index the single file "ab", then `search_tree("ab")` | Save every root, so that searching after clear_trees finds what it found before | high, not executed | FileSearch.SearchAfterSaveAndClearLosesRecords | FileSearch.SearchAfterSaveAllAndClear |
| auto_index.py:170-175 | A new key is inserted with `json_array(?)` over the record's JSON text. SQLite stores that as a JSON string, which `search_db` passes over (search/file_search.py:391-400). | `auto_index` of a new file "x.txt", then `search_db("x")` | `json_array(json(?))`, storing the record dictionary | high, not executed | AutoIndex.AutoIndexedRecordNotFound | AutoIndex.AutoUpsertFixedIsFound |
