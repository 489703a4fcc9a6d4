# ScoreSync level loader and content store, modelled in Dafny

This project models two parts of ScoreSync-Modern, a server that hands out levels to Sonolus clients.

- **The content-addressable store** (`Repository`, helpers/repository.py). It is a dictionary from SHA-1 digest to an entry `{hash, file}`. The `file` field is either a path string or an in-memory blob.
  - A path string may name a chain of archives separated by `|` (`a.zip|inner.zip|file.png`).
  - `add_file` deletes any entry already stored under the same absolute path, hashes the content read through the chain, and inserts an entry only for a hash it does not yet hold.
  - `add_bytes`, `get_file`, `pop_hash` and `get_srl` work on the same dictionary.
- **The level loader** (`load_levels_directory` and its helpers, helpers/levels.py). Each scan walks the level folders in lower-cased name order. For each folder it:
  - gives the folder a stable id;
  - picks a candidate file for the cover (with its generated background), the music and the chart;
  - runs a gap-tolerant state machine per asset group. A committed hash is kept while its file is missing, for a grace period of 10 seconds. It is evicted from the store only when a replacement is confirmed or when the grace period has run out. A failed confirmation keeps what was committed;
  - reports a snapshot built only from the committed fields.

  The scan then writes `cache.json` back.

## How the model is organised

- `common.dfy`, `text.dfy`, `sorting.dfy` and `files.dfy` hold the Python behaviour the code relies on:
  - `Option`/`Result` and Python truthiness;
  - `str.lower`, on ASCII letters only, `PurePath.name` and `.suffix`;
  - `str.split` and `str.join`;
  - a stable sort by key;
  - a disk as a map from path to file or directory (the directory lists its entries in listing order).
- `store.dfy` (module `ContentStore`) is the store.
  - The class `Repository` has the field `entries` (`_map`). Its methods mutate it in place.
  - Each method is proved equal to a specification function (`AddFileSpec`, `PopHashSpec`, …).
  - Lemmas about those functions state what the store promises.
  - SHA-1, `os.path.abspath` and archive extraction are function-valued parameters (`Hooks`).
- `folder_state.dfy` holds the `folder_state` record:
  - its missing timers and the grace helpers, with `FolderRecord`, a mutable record, for `_mark_missing`/`_clear_missing`;
  - the snapshot entry;
  - `_ensure_cache_json`, `_load_cache` and `_save_cache`.
- `candidates.dfy` holds candidate selection: `_first_matching_file`, the group filters, and the sorted folder listing.
- `score.dfy` holds the dispatch of `convert_score_to_cache`.
- `reconcile.dfy` holds the decision logic for one group, written as pure functions that return a `Verdict`:
  - `should_confirm`, mtime-changed and needs-warm;
  - the grace check;
  - the branch for a missing candidate and the branch for a present one.

  A `Verdict` is the new record plus the hashes handed to `_repo_del_hash`, in order.
- `scan.dfy` (module `Scan`) is a functional reference for a whole scan: `CoverStep`, `SlotStep`, `FolderStep`, `ScanFolders` and `LoadSpec`.
  - The scan's inputs include a switch `fixes` with two settings. `AsWritten` is the program as it stands: assets are added with `repo.add_file(path)`, which splits the path on the pipe character, and the chart test is `_is_candidate_score_file`, which admits hidden files. `Corrected` repairs both defects listed under "Findings": assets are added by their real path, and hidden files are not chart candidates.
  - Every property in `scan_props.dfy` and every imperative method in `loader.dfy` is stated for any value of the switch, so it holds for both settings.
- `scan_props.dfy` proves properties of a scan:
  - folder ids are stable;
  - every listed folder gets exactly one snapshot entry, in listing order, carrying its saved id;
  - each folder's iteration builds its entry from the committed hashes of the record it saves;
  - consistent timers stay consistent;
  - an up-to-date group is left alone;
  - a group step removes from the store only a hash its record held, or an entry stored under a path the step adds again;
  - a busy or failed scan returns the last snapshot.
- `loader.dfy` (module `Loader`) is the imperative loader. The class `LevelsLoader` holds:
  - the shared `Repository`;
  - `cache.json`;
  - `_LAST_LEVELS_RESULT`, the last completed snapshot.

  Its methods follow the Python branch by branch. Each is proved to leave exactly the state `Scan` specifies, for the setting of `fixes` it is given. With `AsWritten` that is `load_levels_directory` as it stands.

The collaborators the code calls become parameters:
- image decoding and background rendering, one function of the version tag and the cover bytes that may fail;
- chart detection and conversion;
- gzip;
- `uuid4`, as an infinite supply of fresh ids `freshIds`;
- `time.time()`, as an integer `now`;
- `_scan_mtimes`, as the map `newMtimes` passed in.

Where the code and its documentation disagree, the model follows the code:
- A corrupt or non-object `cache.json` does not make the scan fail over to the last snapshot. `_load_cache` reads it as empty tables and the scan goes on (`LoadCache`).
- The background missing timer is set, and cleared, together with the cover timer. Both belong to the cover hash (`TimersConsistent`).

## Model

| member | source | states |
|---|---|---|
| ContentStore.ReadChain | helpers/repository.py:16-35 | The first part is read from disk and each later part is read as a member of the archive read so far. A one-part chain is a plain file read. Success implies that the first part is a file. |
| ContentStore.ReadChainFailsFromPrefix | helpers/repository.py:23-34 | Once a prefix of the chain fails, the whole chain fails with that same error. |
| ContentStore.ReadPathStringIsChain | helpers/repository.py:46-50 | The dispatch on a pipe character in the path is the same as reading the pipe-split of the string, since a string with no pipe splits into itself. |
| ContentStore.AddChainSpec | helpers/repository.py:43-54 | Adding succeeds iff the chain can be read. The result is the SHA-1 of the bytes read, and that hash is in the store afterwards. Any entry stored under the path afterwards is that hash. Entries under other paths are kept unchanged. No key appears but the returned hash. |
| ContentStore.AddFileSpec | helpers/repository.py:37-54 | With `error_on_file_nonexistent=False`, a missing path gives `None` and leaves the map unchanged. `None` arises only in that case. Otherwise the result is adding the pipe-split of the path. |
| ContentStore.AddFileStoresUnderItsPath | helpers/repository.py:43-53 | After `add_file`, every entry stored under the given path is the returned hash, so the old entry for that path is gone. |
| ContentStore.GetFileSpec | helpers/repository.py:86-106 | An unknown hash gives `None`. A blob is returned unchanged. A returned value implies a known hash. A stored path reads successfully iff its chain can be read. |
| ContentStore.GetFileReadsAsWritten | helpers/repository.py:90-100 | A stored path string is read through the archive chain when it holds a pipe character, and straight from disk otherwise. |
| ContentStore.PopHashSpec | helpers/repository.py:64-68 | An unknown hash gives `None` and the map is unchanged. The value returned is that of `get_file`. The entry is removed exactly when non-empty data was read. |
| ContentStore.AddBytesSpec | helpers/repository.py:56-62 | The blob's hash is a key afterwards and no other key is added. Existing entries are never overwritten. A new hash maps to `{hash, blob}`. |
| ContentStore.RemovePreservesWellFormed | helpers/repository.py:64-68 | Deleting a key (in `pop_hash`, or `_repo_del_hash` in the loader) keeps every entry under its own hash and at most one entry per path. |
| ContentStore.AddChainPreservesWellFormed | helpers/repository.py:43-53 | `add_file` keeps `_map[k]["hash"] == k` and at most one entry per absolute path. |
| ContentStore.AddFilePreservesWellFormed | helpers/repository.py:37-54 | The same holds for `add_file` on either value of `error_on_file_nonexistent`. |
| ContentStore.DropFoundKey | helpers/repository.py:43-45 | In a well-formed store, deleting the one key found for a path removes every entry stored under that path. |
| ContentStore.AddThenGet | helpers/repository.py:43-54 | A file added under a new hash reads back, through `get_file`, as the bytes it was hashed from. |
| ContentStore.AddBytesThenGet | helpers/repository.py:56-62 | `add_bytes` keeps the store well formed. A blob added under a new hash reads back unchanged. |
| ContentStore.PipeInFolderNameBreaksAddFile | helpers/repository.py:46-47 | As written: given the file `c.png` in a level folder named `a`, pipe, `b`, `add_file` reads the path as a chain starting at the archive `levels/a`, which does not exist, and fails. |
| ContentStore.AddRealFileSucceeds | helpers/repository.py:43-54 | Corrected: adding an existing file by its real path always succeeds. It returns the SHA-1 of its content, which is in the store afterwards. |
| ContentStore.Repository.constructor | helpers/repository.py:13-14 | A new store is empty and well formed. |
| ContentStore.Repository.GetHashFromFilePath | helpers/repository.py:76-84 | Returns a key whose path entry matches the path as an absolute path, skipping blobs. Returns `None` exactly when no such entry exists. |
| ContentStore.Repository.ReadFromZipChain | helpers/repository.py:16-35 | The loop over the parts computes `ReadChain`. |
| ContentStore.Repository.AddFile | helpers/repository.py:37-54 | The new map and the result are those of `AddFileSpec`, and the store stays well formed. |
| ContentStore.Repository.AddRealFile | helpers/repository.py:43-54 | The corrected add for a real path, which a scan uses only under `Corrected`: the path is read as the one-part chain `[file]`, never split on a pipe. The result and the new map are those of `AddChainSpec` on `[file]`, and the store stays well formed. |
| ContentStore.Repository.AddBytes | helpers/repository.py:56-62 | The new map is `AddBytesSpec`, and the store stays well formed. |
| ContentStore.Repository.GetFile | helpers/repository.py:86-106 | The result is `GetFileSpec`, and nothing changes. |
| ContentStore.Repository.PopHash | helpers/repository.py:64-68 | The result and the new map are those of `PopHashSpec`. |
| ContentStore.Repository.GetSrl | helpers/repository.py:108-111 | Returns a reference iff the hash is a key of the map. The reference's url is `/sonolus/repository/` followed by the hash. |
| Sorting.SortBy | helpers/levels.py:268 | `list.sort(key=...)` returns a permutation of its input, sorted by the key. |
| Sorting.SortedHead | helpers/levels.py:268-269 | The head of the sorted list is in the input and is least by the key. The sorted list is empty iff the input is. |
| FolderStates.MissingKey | helpers/levels.py:279-280 | `_missing_key(prefix)` starts with the prefix and is longer than it. |
| FolderStates.MissingKeysDistinct | helpers/levels.py:279-280 | The four timer keys are different, so the four timers are independent. |
| FolderStates.Marked | helpers/levels.py:283-286 | `_mark_missing` starts a stopped timer at `now` and leaves a running timer alone. No other field changes. |
| FolderStates.Cleared | helpers/levels.py:289-290 | `_clear_missing` stops the timer. No other field changes. |
| FolderStates.MissingTooLong | helpers/levels.py:293-297 | `_missing_too_long` is false while no timer runs. |
| FolderStates.MarkingKeepsFirstTime | helpers/levels.py:283-286 | Over any run of scans that mark the asset missing, the timer keeps the time of the first mark. |
| FolderStates.MarkingRunningTimer | helpers/levels.py:285 | Marking a running timer changes nothing, however often it is done. |
| FolderStates.GraceExpiresAt | helpers/levels.py:293-297 | After a first mark at `t`, the asset is missing too long exactly when `now >= t + 10`. |
| FolderStates.ClearedNeverExpired | helpers/levels.py:289-297 | A cleared timer never counts as expired. |
| FolderStates.FolderRecord.constructor | helpers/levels.py:423 | The mutable record holds the given state. |
| FolderStates.FolderRecord.MarkMissing | helpers/levels.py:283-286 | The record becomes `Marked` of the old record. |
| FolderStates.FolderRecord.ClearMissing | helpers/levels.py:289-290 | The record becomes `Cleared` of the old record. |
| FolderStates.EntryIgnoresTimersAndRels | helpers/levels.py:657-664 | Records that agree on the committed hashes give the same entry, whatever their timers and rels. The snapshot never shows transient state. |
| FolderStates.EnsureCacheFile | helpers/levels.py:185-201 | A missing `cache.json` is created, and an existing one is left as it is. |
| FolderStates.LoadCache | helpers/levels.py:204-215 | An unreadable or non-object file gives three empty tables. A parsed object keeps each table it has and defaults each missing one to empty. |
| FolderStates.SaveThenLoad | helpers/levels.py:666-669 | What a scan saves is what the next scan loads. |
| Candidates.IsCandidateScoreFile | helpers/levels.py:94-107 | As written: a file whose lower-cased suffix is in `_SCORE_EXTS`, the empty suffix included. A scan under `AsWritten` uses this test. |
| Candidates.IsCandidateScoreFileFixed | helpers/levels.py:94-107 | Corrected: the same test, rejecting hidden names. A scan uses it only under `Corrected`. |
| Candidates.EligibleNames | helpers/levels.py:260-267 | The names kept are exactly the listed files that pass the suffix filter and the predicate. A listing error gives none. |
| Candidates.FirstMatchingFile | helpers/levels.py:257-269 | The result, when there is one, passes the filters and is least by lower-cased name among those that do. The result is `None` iff no listed file passes. |
| Candidates.SelectCandidate | helpers/levels.py:442-463 | The committed rel is the candidate whenever it is non-empty and still exists. Otherwise the candidate is the folder's first matching file, as a rel under the levels directory. A candidate always exists on disk. |
| Candidates.GroupFilters | helpers/levels.py:442-463 | The cover filter is png, jpg or jpeg. The music filter is mp3 or ogg. The score filter is a chart extension or no extension. Only with the fix for hidden files does it also reject a hidden name. |
| Candidates.FolderDirs | helpers/levels.py:411-414 | The folders are exactly the listed directories, sorted by lower-cased name. Listing fails iff the levels directory is not a directory. |
| Candidates.HiddenFileShadowsChart | helpers/levels.py:102-107 | As written: in a folder holding `.DS_Store` and the extensionless chart `chart`, the first matching file for the score is `.DS_Store`. |
| Candidates.ChartChosenBesideHiddenFile | helpers/levels.py:102-107 | Corrected: in that folder the first matching file for the score is `chart`. |
| Candidates.FreshFolderCandidate | helpers/levels.py:442-463 | With nothing committed, a group's candidate is the folder's first matching file, as a rel under the levels directory. |
| Candidates.FinderFolderScoreAsWritten | helpers/levels.py:457-463 | As written: the score candidate of the folder `song`, with nothing committed, is `song/.DS_Store`, which never converts. |
| Candidates.FinderFolderScoreCorrected | helpers/levels.py:457-463 | Corrected: the score candidate of the same folder is `song/chart`. |
| Candidates.ScoreCandidateNeverHidden | helpers/levels.py:457-463 | With the corrected filter the score candidate is never a hidden file. A folder holding a visible chart always has a candidate. |
| ScoreConversion.ConvertedBytes | helpers/levels.py:130-173 | No detection gives `False`. `sus`, `mmw` and `usc` are exported. `lvd`/`compress_pysekai` gives the raw bytes and `lvd`/`pysekai` gives them gzipped. Any other kind or variant gives `False`. |
| ScoreConversion.ScoreBytes | helpers/levels.py:116-131 | A chart can be converted only if its path is a file. |
| ScoreConversion.ConvertScoreToCache | helpers/levels.py:110-177 | The call raises iff the cache directory cannot be created. On `True`, the converted file exists and holds the converted bytes. On `False`, at most the directory was created. |
| ScoreConversion.CompressedLevelDataIsCopied | helpers/levels.py:160-165 | Data detected as compressed level data is written out as it was read in text mode (`readText`: decoded as UTF-8 with undecodable bytes dropped, then encoded again). It is not the bytes on disk, so gzip bytes do not survive. |
| ScoreConversion.UndetectedIsRejected | helpers/levels.py:130-131 | A file in which nothing is detected gives `False`, and the disk is unchanged. |
| Reconcile.RepoDelHash | helpers/levels.py:73-87 | `_repo_del_hash` removes a non-empty hash. It does nothing for `None`, `""` or an unknown hash. No other entry changes. |
| Reconcile.RepoDelHashes | helpers/levels.py:474-476 | Deleting a list removes exactly its non-empty hashes and keeps every other entry. |
| Reconcile.RepoDelHashesAppend | helpers/levels.py:535-538 | Deleting `hs1 + hs2` is deleting `hs1`, then `hs2`. |
| Reconcile.RepoDelHashesSingle | helpers/levels.py:73-87 | Deleting a one-hash list is one `_repo_del_hash`. |
| Reconcile.RepoDelHashesRemovesOnlyListed | helpers/levels.py:73-87 | A key that a deletion list removes is in the list. |
| Reconcile.WithCommitted | helpers/levels.py:544-546 | Committing a rel and hash for one group sets just those two fields. |
| Reconcile.SkipExactlyWhenUpToDate | helpers/levels.py:504-636 | Confirmation is skipped only when all of these hold: the candidate is the committed rel, its mtime is unchanged, and a committed hash is served by a non-empty store. For the cover, a background hash must also be committed. |
| Reconcile.GraceOverMeans | helpers/levels.py:469-472 | Marking, then checking in the same scan, is over only for a timer started at least 10 seconds before, in an earlier scan. |
| Reconcile.CoverMissing | helpers/levels.py:466-495 | Within the grace period both timers run and nothing is evicted. Once it is over, the cover hash and a non-empty background hash are evicted together, cover, background and rel become `None`, and the timers stop. With nothing committed, the fields become `None`. Other groups are untouched. |
| Reconcile.CoverPresent | helpers/levels.py:497-553 | Both timers stop. A failed confirmation keeps the committed fields and evicts nothing. A confirmed one commits the new rel and hashes, and evicts exactly the old non-empty hashes that differ from their replacements. |
| Reconcile.SlotMissing | helpers/levels.py:556-620 | The music and score counterpart of `CoverMissing`, covering the grace period, expiry, and nothing committed. |
| Reconcile.SlotPresent | helpers/levels.py:573-652 | The music and score counterpart of `CoverPresent`: the timer stops, a failure keeps the committed fields, and a replacement evicts only an old, different, non-empty hash. |
| Reconcile.VerdictsKeepTimersConsistent | helpers/levels.py:466-652 | Every branch keeps this invariant: a running timer belongs to a group with a committed hash. |
| Reconcile.EvictionOnlyOnReplacementOrExpiry | helpers/levels.py:466-652 | A hash is evicted only in two cases. Either a confirmed replacement differs from it, or the group's grace period is over with no candidate; in that case the hash was the committed one. |
| Scan.Put | helpers/levels.py:658 | `out[name] = entry`: a new name is appended, and names stay in step with keys. |
| Scan.AddedParts | helpers/repository.py:46-47 | The parts an asset is added under join back to its path. They are the path itself with the fix, or when the path holds no pipe. |
| Scan.AddPathSpec | helpers/levels.py:336-338 | As written, adding an asset is `add_file(path)` with `error_on_file_nonexistent=True`. With the fix, it is adding the one-part chain `[path]`. |
| Scan.AddPathInPipeFolder | helpers/levels.py:336-338 | For `c.png` in a level folder named `a`, pipe, `b`: the add fails as written, and with the fix it returns the SHA-1 of the file. |
| Scan.ConfirmMusicSpec | helpers/levels.py:346-351 | `_confirm_music` gives a hash iff the parts the music path is added under can be read. The hash is the SHA-1 of what was read and is in the store. With no pipe in the path, or with the fix, that is iff the music file exists, and the hash is the SHA-1 of its bytes. Only entries stored under the music path can leave the store. |
| Scan.ConfirmScoreSpec | helpers/levels.py:354-363 | `_confirm_score` fails when the cache directory cannot be made. On success, `converted_score` holds the converted bytes, and the hash is the SHA-1 of the added parts and is in the store. With no pipe in the path, or with the fix, it is the SHA-1 of the converted bytes. Only entries stored under the converted path can leave the store. |
| Scan.ConfirmCoverSpec | helpers/levels.py:305-343 | `_confirm_cover_and_background` fails when the cache directory cannot be made. On success, the cover is a file whose rendering succeeded, and `background.png` holds the rendered background. Both hashes are the SHA-1s of what their added parts read, and the background hash is in the store. Only entries stored under the cover or background path can leave the store. |
| Scan.ConfirmCoverHashes | helpers/levels.py:327-339 | When the cover is added by its own path and is not the background file, the cover hash is the SHA-1 of the cover's bytes. Likewise the background hash is the SHA-1 of the rendered PNG. The cover hash is in the final store unless the two paths name the same file, or the cover's content was already stored under the background path. |
| ScanProperties.UpToDateGroupIsKept | helpers/levels.py:551-553 | A group whose committed file is present, unchanged and served is not confirmed again. The store and disk stay as they are, and only its timers are touched. |
| ScanProperties.CoverStepKeepsTimers | helpers/levels.py:465-553 | The cover branch keeps the timers consistent. |
| ScanProperties.SlotStepKeepsTimers | helpers/levels.py:555-652 | The music and score branches keep the timers consistent. |
| ScanProperties.CoverStepRemovals | helpers/levels.py:465-553 | A key the cover branch removes from the store is either the cover or background hash of the record, or an entry stored under the cover or background path that the branch adds again. With no candidate, the first case needs the grace period to be over. |
| ScanProperties.SlotStepRemovals | helpers/levels.py:555-652 | A key the music or score branch removes is either the group's committed hash, or an entry stored under the music path or converted path that the branch adds again. With no candidate, the first case needs the grace period to be over. |
| ScanProperties.FolderGroupsKeepTimers | helpers/levels.py:465-652 | The three branches of a folder keep the timers consistent. |
| ScanProperties.FolderStepKeepsTimers | helpers/levels.py:415-664 | One folder's iteration keeps every saved record's timers consistent. |
| ScanProperties.ScanKeepsTimers | helpers/levels.py:411-664 | The whole loop keeps every saved record's timers consistent. |
| ScanProperties.FolderStepReportsSavedRecord | helpers/levels.py:655-664 | A folder's entry carries its id and exactly the committed hashes of the record saved under that id. Other records are unchanged. |
| ScanProperties.FolderStepIds | helpers/levels.py:418-421 | A non-empty id is reused. Otherwise the next fresh id is minted. No other name's id changes. |
| ScanProperties.FolderStepPutsEntry | helpers/levels.py:658-664 | The folder's entry carries its id, a new name is appended, and other entries are unchanged. |
| ScanProperties.ScanKeepsSetIds | helpers/levels.py:418-421 | A name that already has a non-empty id keeps it through the whole loop. |
| ScanProperties.ScanLeavesOthers | helpers/levels.py:411-664 | A name outside the listing keeps its id and its entry. |
| ScanProperties.ScanGivesEntries | helpers/levels.py:411-664 | Every listed folder ends with an id and an entry that carries it. |
| ScanProperties.ScanAppendsNames | helpers/levels.py:411-664 | Distinct new folders are added to the snapshot in listing order. |
| ScanProperties.BusyScanReturnsLast | helpers/levels.py:387-388 | A scan that finds another running returns the last snapshot (or `{}`) and changes nothing. |
| ScanProperties.FailedScanReturnsLast | helpers/levels.py:675-677 | A scan that cannot create the cache directory or list the levels directory returns the last snapshot. The store, the cache tables and the last snapshot are unchanged. |
| ScanProperties.CompletedScan | helpers/levels.py:411-673 | After a completed scan: <br>• the snapshot becomes the last result; <br>• `cache.json` holds the new mtimes; <br>• the entries are exactly the level folders; <br>• each entry's id is the saved id; <br>• every id already set is kept; <br>• consistent timers stay consistent. |
| ScanProperties.CompletedScanOrder | helpers/levels.py:411-414 | The snapshot names the level folders in lower-cased name order, each once. |
| Loader.LevelsLoader.constructor | helpers/levels.py:27-29 | A loader starts with no last snapshot. |
| Loader.LevelsLoader.RepoDelHash | helpers/levels.py:73-87 | `_repo_del_hash` on the shared store leaves `Reconcile.RepoDelHash` of it. |
| Loader.LevelsLoader.AddLevelFile | helpers/levels.py:336-338 | Under `AsWritten` it calls `repo.add_file(path)`, otherwise the real-path add. The result and new store are `AddPathSpec`, and the store stays well formed. |
| Loader.LevelsLoader.ConfirmMusic | helpers/levels.py:346-351 | Computes `ConfirmMusicSpec` on the shared store: through `repo.add_file` under `AsWritten`. |
| Loader.LevelsLoader.ConfirmScore | helpers/levels.py:354-363 | Computes `ConfirmScoreSpec` on the shared store: through `repo.add_file` under `AsWritten`. |
| Loader.LevelsLoader.ConfirmCoverAndBackground | helpers/levels.py:305-343 | Computes `ConfirmCoverSpec` on the shared store: both adds go through `repo.add_file` under `AsWritten`. |
| Loader.LevelsLoader.ReconcileCover | helpers/levels.py:465-553 | The cover branch edits the record and the store exactly as `CoverStep` says. |
| Loader.LevelsLoader.ReconcileSlot | helpers/levels.py:555-652 | The music and score branches edit the record and the store exactly as `SlotStep` says. |
| Loader.LevelsLoader.ReconcileGroups | helpers/levels.py:429-652 | One folder's three branches give `FolderGroups`. Under `AsWritten` the chart test is `_is_candidate_score_file` as written. |
| Loader.LevelsLoader.ReconcileFolder | helpers/levels.py:415-664 | One iteration of the folder loop gives `FolderStep`. |
| Loader.LevelsLoader.ReconcileFolders | helpers/levels.py:411-664 | The loop over the level folders gives `ScanFolders`. |
| Loader.LevelsLoader.LoadLevelsDirectory | helpers/levels.py:370-680 | Result, store, disk, `cache.json` and last snapshot are those of `LoadSpec`. With `env.fixes == AsWritten` this is `load_levels_directory` as it stands. With `Corrected` it is the program with both findings repaired. |

## Left out

- Locking is reduced to a `busy` flag: a scan that finds another running returns the last snapshot. Threads and the stale deep copy (`_clone_last_result`) are concurrency and copying, not logic.
- app.py, routes/*.py, helpers/sha1.py and helpers/background.py are not part of this model. They are the web server, the HTTP handlers, a hashlib wrapper and an image renderer; the model takes SHA-1 and rendering as parameters.
- Image decoding, background rendering, `sonolus_converters`, gzip and ZIP extraction are parameters that may fail. Their internals are foreign libraries.
- `_scan_mtimes` (`os.walk`) is left out: the new mtime map is an input. `time.time()` is an integer `now`. Float timestamps are not modelled.
- `uuid4` is left out: ids come from an input supply `freshIds`, indexed by how many were minted in this scan. Distinctness of fresh ids is not assumed.
- JSON encoding is left out: `cache.json` is a value (`CacheFile`) held by the loader. Writing it never fails in the model, and lost write races are not modelled.
- Path normalisation by `pathlib` is not modelled. A committed rel is used as stored, without collapsing `//` or `.` segments. `mkdir(parents=True)` creates only the last directory.
- `Repository.update_file` is left out: it is an alias for `add_file` that no part of the modelled core calls.
- `_repo_map()` returning `None` is not modelled: the store always has its map.
- Exceptions in the scan loop other than those the confirm helpers catch are not modelled. Such exceptions include a failing `exists()` on a committed path. The model scans every folder once the levels directory can be listed.
- Aliasing between `folder_state` and the dictionary in `folders_cache` is not modelled. A record is edited through `FolderRecord` and saved back under its id, which has the same effect.
- Reconcile.EvictionOnlyOnReplacementOrExpiry: is stated about the hashes a verdict hands to `_repo_del_hash`, not about every change to the store. `add_file` also deletes the old entry for the path it adds, before reading the file, as the code does. `CoverStepRemovals` and `SlotStepRemovals` bound both kinds of removal for one step. Neither checks whether another folder's record still holds a removed hash, and the code does not check this either.
- ScanProperties.CompletedScan: states each entry's id, not its hashes. Two folders can share an id, because fresh ids are not assumed distinct and `cache.json` may map two names to one id. A later folder then overwrites the earlier folder's saved record. So only the per-step `FolderStepReportsSavedRecord` ties an entry to the record it was built from.
- Text.Lower: lower-cases ASCII letters only. Python's `str.lower` is Unicode-aware, so names with non-ASCII capitals match suffixes and sort differently. For example, the model sorts `Éa` before `ßa`. Python lower-cases `Éa` to `éa`, which sorts after `ßa`.
- `add_bytes` is modelled for a `bytes` argument only. An `IO[bytes]` stream stored as the entry's `file` is not modelled, because the program never reads it back.
- ScanProperties.CompletedScanOrder: states the listing order only when the levels directory lists each name once, which a real directory always does.

## Findings

| source | as written | input that shows it | evidently intended | confidence | as-written member | corrected member |
|---|---|---|---|---|---|---|
| helpers/repository.py:46-47, used at helpers/levels.py:337-338, 348, 359 | `add_file` reads any path holding a pipe character as an archive chain, including level files the loader adds by their real paths | a level folder whose name is `a`, a pipe, then `b`, holding `c.png`: cover confirmation reads the archive `levels/a`, which does not exist, so the cover is never committed | the loader's own files are added by their real paths (`Corrected` in the scan's switch) | not executed | Scan.AddPathInPipeFolder | ContentStore.AddRealFileSucceeds |
| helpers/levels.py:102-107 | the empty suffix admits dotfiles, since `Path(".DS_Store").suffix == ""`. A dotfile sorts before letters, so it becomes the score candidate; it never converts, and the real chart is never tried | a folder holding `.DS_Store` and the extensionless chart `chart` | the empty suffix admits extensionless chart files, not hidden files (`Corrected` in the scan's switch) | not executed | Candidates.FinderFolderScoreAsWritten | Candidates.FinderFolderScoreCorrected |
