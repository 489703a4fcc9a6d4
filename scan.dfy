/**
 * `load_levels_directory` of helpers/levels.py as a function of its inputs: the confirm
 * helpers, the three group branches, one folder, the loop over all folders, and the whole scan.
 * The imperative version in module Loader is proved equal to these functions.
 */
module Scan {
  import opened Common
  import opened Text
  import opened Files
  import opened FolderStates
  import opened Candidates
  import opened ContentStore
  import opened ScoreConversion
  import opened Reconcile

  /**
   * Which of the two defects listed under the README's findings a scan repairs: adding each
   * asset by its real path instead of through `add_file`'s '|' split, and leaving hidden files
   * out of the chart test.
   */
  datatype Fixes = Fixes(addByRealPath: bool, skipHiddenCharts: bool)

  /** `load_levels_directory` as written. */
  const AsWritten: Fixes := Fixes(false, false)

  /** The scan with both defects repaired. */
  const Corrected: Fixes := Fixes(true, true)

  /** The path parts an asset is added under: `add_file`'s '|' split, or the path itself. */
  function AddedParts(fixes: Fixes, p: Path): (parts: seq<Path>)
    ensures |parts| >= 1
    ensures Join(parts, '|') == p
    ensures fixes.addByRealPath || '|' !in p ==> parts == [p]
  {
    JoinSplit(p, '|');
    SplitSingle(p, '|');
    if fixes.addByRealPath then [p] else Split(p, '|')
  }

  /** How the confirm helpers add an asset: as written, `repo.add_file(path)`; corrected, a plain read of the path. */
  function AddPathSpec(fixes: Fixes, m: Store, hooks: Hooks, disk: Disk, p: Path): (r: (Result<Option<Hash>, IoError>, Store))
    ensures !fixes.addByRealPath ==> r == AddFileSpec(m, hooks, disk, p, true)
    ensures fixes.addByRealPath ==> r == AddChainSpec(m, hooks, disk, [p])
  {
    AddChainSpec(m, hooks, disk, AddedParts(fixes, p))
  }

  /**
   * In a level folder named `a|b`, the cover `c.png` cannot be added as written (the split
   * reads `levels/a` as an archive), and is added under its hash once fixed.
   */
  lemma AddPathInPipeFolder(m: Store, hooks: Hooks)
    ensures AddPathSpec(AsWritten, m, hooks, PipeFolderDisk(), "levels/a|b/c.png").0.Err?
    ensures AddPathSpec(Corrected, m, hooks, PipeFolderDisk(), "levels/a|b/c.png").0 == Ok(Some(hooks.sha1([1])))
  {
    PipeInFolderNameBreaksAddFile(m, hooks);
    AddRealFileSucceeds(m, hooks, PipeFolderDisk(), "levels/a|b/c.png");
  }

  /** What a scan is given from outside: paths, the clock, the file-system walk, id minting and the collaborators. */
  datatype Env = Env(
    /** `AsWritten` for the program as it stands. */
    fixes: Fixes,
    levels: Path,
    cacheRoot: Path,
    bgVersion: string,
    /** `time.time()` at the start of the scan. */
    now: int,
    /** `_scan_mtimes(levels_dir)`. */
    newMtimes: map<string, int>,
    /** The `k`-th `str(uuid.uuid4())` of this scan. */
    freshIds: nat -> string,
    conv: Converters,
    /** Opening the cover with Pillow, `render_png(bg_version, im)` and PNG encoding; `None` when any of them raises. */
    background: (string, Bytes) -> Option<Bytes>)

  /** The values fixed for the whole loop: `old_mtimes` from the cache and `repo_empty` computed before it. */
  datatype Context = Context(env: Env, hooks: Hooks, oldMtimes: map<string, int>, repoEmpty: bool)

  /** The name `_confirm_cover_and_background` writes the background under. */
  const BackgroundName: EntryName := "background.png"

  /** The snapshot `out`: entries by folder name, and the names in insertion order. */
  datatype Snapshot = Snapshot(names: seq<string>, entries: map<string, LevelEntry>)

  const EmptySnapshot: Snapshot := Snapshot([], map[])

  /** The listed names are exactly the names that have entries. */
  ghost predicate NamesMatchKeys(s: Snapshot) {
    forall n :: n in s.names <==> n in s.entries
  }

  /** Every name listed once, and exactly the names that have entries. */
  ghost predicate SnapshotWellFormed(s: Snapshot) {
    (forall i, j :: 0 <= i < j < |s.names| ==> s.names[i] != s.names[j]) && NamesMatchKeys(s)
  }

  /** `out[name] = entry`: a new name goes at the end, an existing one keeps its place. */
  function Put(s: Snapshot, name: string, e: LevelEntry): (r: Snapshot)
    ensures r.entries == s.entries[name := e]
    ensures name !in s.entries ==> r.names == s.names + [name]
    ensures NamesMatchKeys(s) ==> NamesMatchKeys(r)
    ensures SnapshotWellFormed(s) ==> SnapshotWellFormed(r)
  {
    Snapshot(if name in s.entries then s.names else s.names + [name], s.entries[name := e])
  }

  /**
   * `_confirm_music`: `add_file` of the music file. It confirms exactly when the added parts
   * read; without a '|' in the path (or with the fix) that is when the music file exists.
   */
  function ConfirmMusicSpec(ctx: Context, m: Store, disk: Disk, musicPath: Path): (r: (Option<string>, Store))
    ensures var parts := AddedParts(ctx.env.fixes, musicPath);
      (r.0.Some? <==> ReadChain(disk, ctx.hooks.unzip, parts).Ok?)
      && (r.0.Some? ==> r.0.value == ctx.hooks.sha1(ReadChain(disk, ctx.hooks.unzip, parts).value) && r.0.value in r.1)
    ensures ctx.env.fixes.addByRealPath || '|' !in musicPath ==>
      (r.0.Some? <==> IsFile(disk, musicPath)) && (r.0.Some? ==> r.0.value == ctx.hooks.sha1(disk[musicPath].data))
    ensures forall k :: k in m && !AtPath(m[k], ctx.hooks.abspath, musicPath) ==> k in r.1 && r.1[k] == m[k]
  {
    var (res, m1) := AddPathSpec(ctx.env.fixes, m, ctx.hooks, disk, musicPath);
    if res.Err? then (None, m1) else (Some(res.value.value), m1)
  }

  /** `_confirm_score`: convert into the folder's cache directory, then `add_file` of the converted file. */
  function ConfirmScoreSpec(ctx: Context, m: Store, disk: Disk, scorePath: Path, folderCache: Path): (r: (Option<string>, Store, Disk))
    ensures IsFile(disk, folderCache) ==> r == (None, m, disk)
    ensures r.0.Some? ==>
      var made := MakeDir(disk, folderCache).value;
      var bytes := ScoreBytes(made, scorePath, ctx.env.conv);
      var converted := JoinPath(folderCache, ConvertedName);
      var read := ReadChain(r.2, ctx.hooks.unzip, AddedParts(ctx.env.fixes, converted));
      bytes.Some? && ReadBytes(r.2, converted) == Ok(bytes.value)
      && read.Ok? && r.0.value == ctx.hooks.sha1(read.value) && r.0.value in r.1
      && (ctx.env.fixes.addByRealPath || '|' !in converted ==> r.0.value == ctx.hooks.sha1(bytes.value))
    ensures forall k :: k in m && !AtPath(m[k], ctx.hooks.abspath, JoinPath(folderCache, ConvertedName)) ==> k in r.1 && r.1[k] == m[k]
  {
    var convertedPath := JoinPath(folderCache, ConvertedName);
    match ConvertScoreToCache(disk, scorePath, folderCache, ctx.env.conv)
    case Err(_) => (None, m, disk)
    case Ok((ok, d1)) =>
      if !ok || !Exists(d1, convertedPath) then (None, m, d1)
      else
        var (res, m1) := AddPathSpec(ctx.env.fixes, m, ctx.hooks, d1, convertedPath);
        if res.Err? then (None, m1, d1) else (Some(res.value.value), m1, d1)
  }

  /**
   * `_confirm_cover_and_background`: create the cache directory, open and render the cover,
   * write the background, then `add_file` the cover and the background.
   */
  function ConfirmCoverSpec(ctx: Context, m: Store, disk: Disk, coverPath: Path, folderCache: Path): (r: (Option<(string, string)>, Store, Disk))
    ensures IsFile(disk, folderCache) ==> r == (None, m, disk)
    ensures r.0.Some? ==>
      var made := MakeDir(disk, folderCache).value;
      IsFile(made, coverPath) && ctx.env.background(ctx.env.bgVersion, made[coverPath].data).Some?
      && ReadBytes(r.2, JoinPath(folderCache, BackgroundName)) == Ok(ctx.env.background(ctx.env.bgVersion, made[coverPath].data).value)
    ensures r.0.Some? ==>
      var coverRead := ReadChain(r.2, ctx.hooks.unzip, AddedParts(ctx.env.fixes, coverPath));
      var backgroundRead := ReadChain(r.2, ctx.hooks.unzip, AddedParts(ctx.env.fixes, JoinPath(folderCache, BackgroundName)));
      coverRead.Ok? && r.0.value.0 == ctx.hooks.sha1(coverRead.value)
      && backgroundRead.Ok? && r.0.value.1 == ctx.hooks.sha1(backgroundRead.value) && r.0.value.1 in r.1
    ensures var backgroundPath := JoinPath(folderCache, BackgroundName);
      forall k :: k in m && !AtPath(m[k], ctx.hooks.abspath, coverPath) && !AtPath(m[k], ctx.hooks.abspath, backgroundPath) ==>
        k in r.1 && r.1[k] == m[k]
  {
    var backgroundPath := JoinPath(folderCache, BackgroundName);
    match MakeDir(disk, folderCache)
    case Err(_) => (None, m, disk)
    case Ok(d1) =>
      match ReadBytes(d1, coverPath)
      case Err(_) => (None, m, d1)
      case Ok(image) =>
        match ctx.env.background(ctx.env.bgVersion, image)
        case None => (None, m, d1)
        case Some(png) =>
          match WriteFile(d1, folderCache, BackgroundName, png)
          case Err(_) => (None, m, d1)
          case Ok(d2) =>
            var (resCover, m1) := AddPathSpec(ctx.env.fixes, m, ctx.hooks, d2, coverPath);
            if resCover.Err? then (None, m1, d2)
            else
              var (resBackground, m2) := AddPathSpec(ctx.env.fixes, m1, ctx.hooks, d2, backgroundPath);
              if resBackground.Err? then (None, m2, d2)
              else (Some((resCover.value.value, resBackground.value.value)), m2, d2)
  }

  /**
   * The cover hash `_confirm_cover_and_background` returns: the hash of the cover file when it
   * is added by its own path and is not itself the background file, and a key of the final
   * store unless the background add drops it (the cover path and the background path name the
   * same file, or the cover's content was already stored under the background path).
   */
  lemma ConfirmCoverHashes(ctx: Context, m: Store, disk: Disk, coverPath: Path, folderCache: Path)
    ensures var r := ConfirmCoverSpec(ctx, m, disk, coverPath, folderCache);
      r.0.Some? && coverPath != JoinPath(folderCache, BackgroundName) && (ctx.env.fixes.addByRealPath || '|' !in coverPath) ==>
        r.0.value.0 == ctx.hooks.sha1(MakeDir(disk, folderCache).value[coverPath].data)
    ensures var r := ConfirmCoverSpec(ctx, m, disk, coverPath, folderCache);
      var backgroundPath := JoinPath(folderCache, BackgroundName);
      r.0.Some? && (ctx.env.fixes.addByRealPath || '|' !in backgroundPath) ==>
        r.0.value.1 == ctx.hooks.sha1(ctx.env.background(ctx.env.bgVersion, MakeDir(disk, folderCache).value[coverPath].data).value)
    ensures var r := ConfirmCoverSpec(ctx, m, disk, coverPath, folderCache);
      var backgroundPath := JoinPath(folderCache, BackgroundName);
      r.0.Some? && ctx.hooks.abspath(coverPath) != ctx.hooks.abspath(backgroundPath)
      && (r.0.value.0 in m ==> !AtPath(m[r.0.value.0], ctx.hooks.abspath, backgroundPath)) ==>
        r.0.value.0 in r.1
  {
    var backgroundPath := JoinPath(folderCache, BackgroundName);
    var r := ConfirmCoverSpec(ctx, m, disk, coverPath, folderCache);
    if r.0.Some? {
      var d1 := MakeDir(disk, folderCache).value;
      var image := ReadBytes(d1, coverPath).value;
      var png := ctx.env.background(ctx.env.bgVersion, image).value;
      var d2 := WriteFile(d1, folderCache, BackgroundName, png).value;
      var (resCover, m1) := AddPathSpec(ctx.env.fixes, m, ctx.hooks, d2, coverPath);
      var (resBackground, m2) := AddPathSpec(ctx.env.fixes, m1, ctx.hooks, d2, backgroundPath);
      assert r == (Some((resCover.value.value, resBackground.value.value)), m2, d2);
      if coverPath != backgroundPath {
        assert d2[coverPath] == d1[coverPath];
      }
      var h := resCover.value.value;
      if ctx.hooks.abspath(coverPath) != ctx.hooks.abspath(backgroundPath) && (h in m ==> !AtPath(m[h], ctx.hooks.abspath, backgroundPath)) {
        assert !AtPath(m1[h], ctx.hooks.abspath, backgroundPath);
      }
    }
  }

  /** The cover and background branch of one folder: the new record, store and disk. */
  function CoverStep(ctx: Context, m: Store, disk: Disk, st: FolderState, candidate: Option<string>, folderCache: Path): (FolderState, Store, Disk) {
    match candidate
    case None =>
      var v := CoverMissing(st, ctx.env.now);
      (v.state, RepoDelHashes(m, v.evict), disk)
    case Some(rel) =>
      if !ShouldConfirm(st, CoverGroup, rel, ctx.oldMtimes, ctx.env.newMtimes, ctx.repoEmpty, m) then
        (CoverPresent(st, rel, None).state, m, disk)
      else
        var (confirmed, m1, d1) := ConfirmCoverSpec(ctx, m, disk, JoinPath(ctx.env.levels, rel), folderCache);
        var v := CoverPresent(st, rel, confirmed);
        (v.state, RepoDelHashes(m1, v.evict), d1)
  }

  /** The confirm helper of the music or score group. */
  function ConfirmSlotSpec(ctx: Context, g: Group, m: Store, disk: Disk, path: Path, folderCache: Path): (Option<string>, Store, Disk)
    requires g != CoverGroup
  {
    if g == MusicGroup then
      var (r, m1) := ConfirmMusicSpec(ctx, m, disk, path);
      (r, m1, disk)
    else ConfirmScoreSpec(ctx, m, disk, path, folderCache)
  }

  /** The music or score branch of one folder. */
  function SlotStep(ctx: Context, g: Group, m: Store, disk: Disk, st: FolderState, candidate: Option<string>, folderCache: Path): (FolderState, Store, Disk)
    requires g != CoverGroup
  {
    match candidate
    case None =>
      var v := SlotMissing(st, g, ctx.env.now);
      (v.state, RepoDelHashes(m, v.evict), disk)
    case Some(rel) =>
      if !ShouldConfirm(st, g, rel, ctx.oldMtimes, ctx.env.newMtimes, ctx.repoEmpty, m) then
        (SlotPresent(st, g, rel, None).state, m, disk)
      else
        var (confirmed, m1, d1) := ConfirmSlotSpec(ctx, g, m, disk, JoinPath(ctx.env.levels, rel), folderCache);
        var v := SlotPresent(st, g, rel, confirmed);
        (v.state, RepoDelHashes(m1, v.evict), d1)
  }

  /** `folder_ids.get(folder_name)`, minting the next fresh id when it is absent or empty: the id, the table and the mint count. */
  function FolderId(ids: map<string, string>, name: string, freshIds: nat -> string, minted: nat): (string, map<string, string>, nat) {
    if name in ids && ids[name] != "" then (ids[name], ids, minted)
    else (freshIds(minted), ids[name := freshIds(minted)], minted + 1)
  }

  /** The tables the loop updates besides the store: the disk, `folders_cache`, `folder_ids`, ids minted so far, and `out`. */
  datatype Tables = Tables(disk: Disk, folders: map<string, FolderState>, folderIds: map<string, string>, minted: nat, out: Snapshot)

  /** The record a folder starts its iteration with: the cached one, or `{}`, named after the folder. */
  function StartRecord(folders: map<string, FolderState>, id: string, name: string): FolderState {
    (if id in folders then folders[id] else EmptyState).(name := Some(name))
  }

  /** The three group branches of one folder, on candidates chosen before any of them runs. */
  function FolderGroups(ctx: Context, m: Store, disk: Disk, st0: FolderState, name: EntryName, folderCache: Path): (FolderState, Store, Disk) {
    var coverCandidate := CandidateOf(disk, ctx.env.levels, name, st0, CoverGroup, ctx.env.fixes.skipHiddenCharts);
    var musicCandidate := CandidateOf(disk, ctx.env.levels, name, st0, MusicGroup, ctx.env.fixes.skipHiddenCharts);
    var scoreCandidate := CandidateOf(disk, ctx.env.levels, name, st0, ScoreGroup, ctx.env.fixes.skipHiddenCharts);
    var (st1, m1, d1) := CoverStep(ctx, m, disk, st0, coverCandidate, folderCache);
    var (st2, m2, d2) := SlotStep(ctx, MusicGroup, m1, d1, st1, musicCandidate, folderCache);
    SlotStep(ctx, ScoreGroup, m2, d2, st2, scoreCandidate, folderCache)
  }

  /** One iteration of the loop, for the folder `name`. */
  function FolderStep(ctx: Context, m: Store, t: Tables, name: EntryName): (Store, Tables) {
    var (id, ids, minted) := FolderId(t.folderIds, name, ctx.env.freshIds, t.minted);
    var (st, m1, d1) := FolderGroups(ctx, m, t.disk, StartRecord(t.folders, id, name), name, JoinPath(ctx.env.cacheRoot, id));
    (m1, Tables(d1, t.folders[id := st], ids, minted, Put(t.out, name, EntryOf(id, st))))
  }

  /** The loop over the level folders, in order. */
  function ScanFolders(ctx: Context, m: Store, t: Tables, dirs: seq<EntryName>): (Store, Tables)
    decreases |dirs|
  {
    if dirs == [] then (m, t)
    else
      var (m1, t1) := FolderStep(ctx, m, t, dirs[0]);
      ScanFolders(ctx, m1, t1, dirs[1..])
  }

  /** What outlives one call: the store, the disk, `cache.json`, and the last completed snapshot. */
  datatype World = World(store: Store, disk: Disk, cacheFile: CacheFile, last: Option<Snapshot>)

  /** `_clone_last_result() if _HAS_LAST_LEVELS_RESULT else {}`. */
  function LastOrEmpty(last: Option<Snapshot>): (r: Snapshot)
    ensures last.Some? ==> r == last.value
    ensures last.None? ==> r == EmptySnapshot
  {
    if last.Some? then last.value else EmptySnapshot
  }

  /**
   * `load_levels_directory`: `busy` when another scan holds the lock. Creating the cache
   * directory and listing the levels directory are the steps whose failure reaches the outer
   * `except`; the store and disk keep what happened before the failure.
   */
  function LoadSpec(env: Env, hooks: Hooks, busy: bool, w: World): (Snapshot, World) {
    if busy then (LastOrEmpty(w.last), w)
    else
      match MakeDir(w.disk, env.cacheRoot)
      case Err(_) => (LastOrEmpty(w.last), w)
      case Ok(d1) =>
        var file := EnsureCacheFile(w.cacheFile);
        var cache := LoadCache(file);
        match FolderDirs(d1, env.levels)
        case Err(_) => (LastOrEmpty(w.last), World(w.store, d1, file, w.last))
        case Ok(dirs) =>
          var ctx := Context(env, hooks, cache.mtimes, RepoIsEmpty(w.store));
          var (m, t) := ScanFolders(ctx, w.store, Tables(d1, cache.folders, cache.folderIds, 0, EmptySnapshot), dirs);
          var saved := Parsed(SaveCache(Cache(env.newMtimes, t.folders, t.folderIds)));
          (t.out, World(m, t.disk, saved, Some(t.out)))
  }
}
