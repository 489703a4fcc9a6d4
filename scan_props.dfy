/**
 * What a scan promises: stable folder ids, a snapshot with one entry per level folder that
 * reports the saved record, consistent missing timers, untouched up-to-date groups, and the
 * stale result when the scan cannot run.
 */
module ScanProperties {
  import opened Common
  import opened Files
  import opened FolderStates
  import opened Candidates
  import opened ContentStore
  import opened ScoreConversion
  import opened Reconcile
  import opened Scan

  /** A group whose committed file is still there, unchanged and served is not confirmed again: store and disk stay as they are. */
  lemma UpToDateGroupIsKept(ctx: Context, g: Group, m: Store, disk: Disk, st: FolderState, rel: string, folderCache: Path)
    requires CommittedRel(st, g) == Some(rel) && !MtimeChanged(rel, ctx.oldMtimes, ctx.env.newMtimes)
    requires !ctx.repoEmpty && RepoHasHash(m, CommittedHash(st, g))
    requires g == CoverGroup ==> st.backgroundHash.Some?
    ensures g == CoverGroup ==>
      var (st1, m1, d1) := CoverStep(ctx, m, disk, st, Some(rel), folderCache);
      m1 == m && d1 == disk && Untimed(st1) == Untimed(st)
    ensures g != CoverGroup ==>
      var (st1, m1, d1) := SlotStep(ctx, g, m, disk, st, Some(rel), folderCache);
      m1 == m && d1 == disk && Untimed(st1) == Untimed(st)
  {
    SkipExactlyWhenUpToDate(st, g, rel, ctx.oldMtimes, ctx.env.newMtimes, ctx.repoEmpty, m);
  }

  /** The cover branch keeps the timers consistent. */
  lemma CoverStepKeepsTimers(ctx: Context, m: Store, disk: Disk, st: FolderState, candidate: Option<string>, folderCache: Path)
    requires TimersConsistent(st)
    ensures TimersConsistent(CoverStep(ctx, m, disk, st, candidate, folderCache).0)
  {
    match candidate
    case None =>
      VerdictsKeepTimersConsistent(st, CoverGroup, candidate, None, None, ctx.env.now);
    case Some(rel) =>
      var confirmed := ConfirmCoverSpec(ctx, m, disk, JoinPath(ctx.env.levels, rel), folderCache).0;
      VerdictsKeepTimersConsistent(st, CoverGroup, candidate, None, None, ctx.env.now);
      VerdictsKeepTimersConsistent(st, CoverGroup, candidate, confirmed, None, ctx.env.now);
  }

  /** The music and score branches keep the timers consistent. */
  lemma SlotStepKeepsTimers(ctx: Context, g: Group, m: Store, disk: Disk, st: FolderState, candidate: Option<string>, folderCache: Path)
    requires g != CoverGroup && TimersConsistent(st)
    ensures TimersConsistent(SlotStep(ctx, g, m, disk, st, candidate, folderCache).0)
  {
    match candidate
    case None =>
      VerdictsKeepTimersConsistent(st, g, candidate, None, None, ctx.env.now);
    case Some(rel) =>
      var confirmed := ConfirmSlotSpec(ctx, g, m, disk, JoinPath(ctx.env.levels, rel), folderCache).0;
      VerdictsKeepTimersConsistent(st, g, candidate, None, None, ctx.env.now);
      VerdictsKeepTimersConsistent(st, g, candidate, None, confirmed, ctx.env.now);
  }

  /**
   * What the cover branch removes from the store: a hash its record held, dropped once the
   * grace period is over or replaced by a fresh confirm, or an entry stored under the cover
   * or background path the branch adds again. Nothing checks whether another folder's record
   * still holds the same hash.
   */
  lemma CoverStepRemovals(ctx: Context, m: Store, disk: Disk, st: FolderState, candidate: Option<string>, folderCache: Path, k: Hash)
    requires k in m
    ensures k !in CoverStep(ctx, m, disk, st, candidate, folderCache).1 ==>
      ((Some(k) == st.coverHash || Some(k) == st.backgroundHash) && (candidate.None? ==> GraceOver(st, Cover, ctx.env.now)))
      || (candidate.Some? && (AtPath(m[k], ctx.hooks.abspath, JoinPath(ctx.env.levels, candidate.value))
                              || AtPath(m[k], ctx.hooks.abspath, JoinPath(folderCache, BackgroundName))))
  {
    match candidate
    case None =>
      var v := CoverMissing(st, ctx.env.now);
      if k !in RepoDelHashes(m, v.evict) {
        var i :| 0 <= i < |v.evict| && Truthy(v.evict[i]) && k == v.evict[i].value;
        EvictionOnlyOnReplacementOrExpiry(st, CoverGroup, candidate, None, None, ctx.env.now, v.evict[i]);
      }
    case Some(rel) =>
      if ShouldConfirm(st, CoverGroup, rel, ctx.oldMtimes, ctx.env.newMtimes, ctx.repoEmpty, m) {
        var (confirmed, m1, d1) := ConfirmCoverSpec(ctx, m, disk, JoinPath(ctx.env.levels, rel), folderCache);
        var v := CoverPresent(st, rel, confirmed);
        if k in m1 && k !in RepoDelHashes(m1, v.evict) {
          var i :| 0 <= i < |v.evict| && Truthy(v.evict[i]) && k == v.evict[i].value;
          EvictionOnlyOnReplacementOrExpiry(st, CoverGroup, candidate, confirmed, None, ctx.env.now, v.evict[i]);
        }
      }
  }

  /**
   * What the music or score branch removes from the store: the hash its record held, dropped
   * once the grace period is over or replaced by a fresh confirm, or an entry stored under the
   * path the branch adds again (the music file, or the converted chart in the cache directory).
   */
  lemma SlotStepRemovals(ctx: Context, g: Group, m: Store, disk: Disk, st: FolderState, candidate: Option<string>, folderCache: Path, k: Hash)
    requires g != CoverGroup && k in m
    ensures k !in SlotStep(ctx, g, m, disk, st, candidate, folderCache).1 ==>
      (Some(k) == CommittedHash(st, g) && (candidate.None? ==> GraceOver(st, TimerOf(g), ctx.env.now)))
      || (candidate.Some? && AtPath(m[k], ctx.hooks.abspath,
            if g == MusicGroup then JoinPath(ctx.env.levels, candidate.value) else JoinPath(folderCache, ConvertedName)))
  {
    match candidate
    case None =>
      var v := SlotMissing(st, g, ctx.env.now);
      if k !in RepoDelHashes(m, v.evict) {
        var i :| 0 <= i < |v.evict| && Truthy(v.evict[i]) && k == v.evict[i].value;
        EvictionOnlyOnReplacementOrExpiry(st, g, candidate, None, None, ctx.env.now, v.evict[i]);
      }
    case Some(rel) =>
      if ShouldConfirm(st, g, rel, ctx.oldMtimes, ctx.env.newMtimes, ctx.repoEmpty, m) {
        var (confirmed, m1, d1) := ConfirmSlotSpec(ctx, g, m, disk, JoinPath(ctx.env.levels, rel), folderCache);
        var v := SlotPresent(st, g, rel, confirmed);
        if k in m1 && k !in RepoDelHashes(m1, v.evict) {
          var i :| 0 <= i < |v.evict| && Truthy(v.evict[i]) && k == v.evict[i].value;
          EvictionOnlyOnReplacementOrExpiry(st, g, candidate, None, confirmed, ctx.env.now, v.evict[i]);
        }
      }
  }

  /** Every saved record has consistent timers. */
  ghost predicate AllTimersConsistent(folders: map<string, FolderState>) {
    forall k :: k in folders ==> TimersConsistent(folders[k])
  }

  /** The three group branches keep the timers consistent. */
  lemma FolderGroupsKeepTimers(ctx: Context, m: Store, disk: Disk, st0: FolderState, name: EntryName, folderCache: Path)
    requires TimersConsistent(st0)
    ensures TimersConsistent(FolderGroups(ctx, m, disk, st0, name, folderCache).0)
  {
    var coverCandidate := CandidateOf(disk, ctx.env.levels, name, st0, CoverGroup, ctx.env.fixes.skipHiddenCharts);
    var musicCandidate := CandidateOf(disk, ctx.env.levels, name, st0, MusicGroup, ctx.env.fixes.skipHiddenCharts);
    var scoreCandidate := CandidateOf(disk, ctx.env.levels, name, st0, ScoreGroup, ctx.env.fixes.skipHiddenCharts);
    CoverStepKeepsTimers(ctx, m, disk, st0, coverCandidate, folderCache);
    var (st1, m1, d1) := CoverStep(ctx, m, disk, st0, coverCandidate, folderCache);
    SlotStepKeepsTimers(ctx, MusicGroup, m1, d1, st1, musicCandidate, folderCache);
    var (st2, m2, d2) := SlotStep(ctx, MusicGroup, m1, d1, st1, musicCandidate, folderCache);
    SlotStepKeepsTimers(ctx, ScoreGroup, m2, d2, st2, scoreCandidate, folderCache);
  }

  /** One folder's iteration keeps every saved record's timers consistent. */
  lemma FolderStepKeepsTimers(ctx: Context, m: Store, t: Tables, name: EntryName)
    requires AllTimersConsistent(t.folders)
    ensures AllTimersConsistent(FolderStep(ctx, m, t, name).1.folders)
  {
    var (id, ids, minted) := FolderId(t.folderIds, name, ctx.env.freshIds, t.minted);
    var st0 := StartRecord(t.folders, id, name);
    assert TimersConsistent(st0);
    FolderGroupsKeepTimers(ctx, m, t.disk, st0, name, JoinPath(ctx.env.cacheRoot, id));
  }

  /** The whole loop keeps every saved record's timers consistent. */
  lemma {:induction false} ScanKeepsTimers(ctx: Context, m: Store, t: Tables, dirs: seq<EntryName>)
    requires AllTimersConsistent(t.folders)
    ensures AllTimersConsistent(ScanFolders(ctx, m, t, dirs).1.folders)
    decreases |dirs|
  {
    if dirs != [] {
      FolderStepKeepsTimers(ctx, m, t, dirs[0]);
      var (m1, t1) := FolderStep(ctx, m, t, dirs[0]);
      ScanKeepsTimers(ctx, m1, t1, dirs[1..]);
    }
  }

  /** One folder's iteration: its entry carries its id and the hashes of the record saved under that id; other records stay. */
  lemma FolderStepReportsSavedRecord(ctx: Context, m: Store, t: Tables, name: EntryName)
    ensures var t1 := FolderStep(ctx, m, t, name).1;
      name in t1.folderIds && name in t1.out.entries && t1.folderIds[name] in t1.folders
      && t1.out.entries[name] == EntryOf(t1.folderIds[name], t1.folders[t1.folderIds[name]])
    ensures var t1 := FolderStep(ctx, m, t, name).1;
      forall k :: k in t.folders && k != t1.folderIds[name] ==> k in t1.folders && t1.folders[k] == t.folders[k]
  {
  }

  /** One folder's iteration: the folder keeps a non-empty id or gets the next fresh one, and no other name's id changes. */
  lemma FolderStepIds(ctx: Context, m: Store, t: Tables, name: EntryName)
    ensures var t1 := FolderStep(ctx, m, t, name).1;
      name in t1.folderIds &&
      if name in t.folderIds && t.folderIds[name] != "" then t1.folderIds[name] == t.folderIds[name] && t1.minted == t.minted
      else t1.folderIds[name] == ctx.env.freshIds(t.minted) && t1.minted == t.minted + 1
    ensures var t1 := FolderStep(ctx, m, t, name).1;
      forall n :: n != name ==> (n in t1.folderIds <==> n in t.folderIds) && (n in t.folderIds ==> t1.folderIds[n] == t.folderIds[n])
  {
  }

  /** One folder's iteration puts exactly the folder's entry, carrying its id, into the snapshot. */
  lemma FolderStepPutsEntry(ctx: Context, m: Store, t: Tables, name: EntryName)
    ensures var t1 := FolderStep(ctx, m, t, name).1;
      name in t1.folderIds && name in t1.out.entries && t1.out.entries[name].id == t1.folderIds[name]
      && (NamesMatchKeys(t.out) ==> NamesMatchKeys(t1.out))
      && (name !in t.out.entries ==> t1.out.names == t.out.names + [name])
    ensures var t1 := FolderStep(ctx, m, t, name).1;
      forall n :: n != name ==> (n in t1.out.entries <==> n in t.out.entries) && (n in t.out.entries ==> t1.out.entries[n] == t.out.entries[n])
  {
  }

  /** All names in `dirs` are different. */
  predicate Distinct(dirs: seq<EntryName>) {
    forall i, j :: 0 <= i < j < |dirs| ==> dirs[i] != dirs[j]
  }

  /** A name that already has a non-empty id keeps it through the whole loop. */
  lemma {:induction false} ScanKeepsSetIds(ctx: Context, m: Store, t: Tables, dirs: seq<EntryName>, n: string)
    requires n in t.folderIds && t.folderIds[n] != ""
    ensures var t1 := ScanFolders(ctx, m, t, dirs).1;
      n in t1.folderIds && t1.folderIds[n] == t.folderIds[n]
    decreases |dirs|
  {
    if dirs != [] {
      FolderStepIds(ctx, m, t, dirs[0]);
      var (m1, t1) := FolderStep(ctx, m, t, dirs[0]);
      ScanKeepsSetIds(ctx, m1, t1, dirs[1..], n);
    }
  }

  /** A name outside the listing keeps its id and its snapshot entry. */
  lemma {:induction false} ScanLeavesOthers(ctx: Context, m: Store, t: Tables, dirs: seq<EntryName>, n: string)
    requires n !in dirs
    ensures var t1 := ScanFolders(ctx, m, t, dirs).1;
      (n in t1.folderIds <==> n in t.folderIds) && (n in t.folderIds ==> t1.folderIds[n] == t.folderIds[n])
      && (n in t1.out.entries <==> n in t.out.entries) && (n in t.out.entries ==> t1.out.entries[n] == t.out.entries[n])
    decreases |dirs|
  {
    if dirs != [] {
      FolderStepIds(ctx, m, t, dirs[0]);
      FolderStepPutsEntry(ctx, m, t, dirs[0]);
      var (m1, t1) := FolderStep(ctx, m, t, dirs[0]);
      assert n !in dirs[1..];
      ScanLeavesOthers(ctx, m1, t1, dirs[1..], n);
    }
  }

  /** Every listed folder ends with an id and a snapshot entry carrying that id. */
  lemma {:induction false} ScanGivesEntries(ctx: Context, m: Store, t: Tables, dirs: seq<EntryName>, n: string)
    requires n in dirs
    ensures var t1 := ScanFolders(ctx, m, t, dirs).1;
      n in t1.folderIds && n in t1.out.entries && t1.out.entries[n].id == t1.folderIds[n]
    decreases |dirs|
  {
    FolderStepPutsEntry(ctx, m, t, dirs[0]);
    var (m1, t1) := FolderStep(ctx, m, t, dirs[0]);
    if n in dirs[1..] {
      ScanGivesEntries(ctx, m1, t1, dirs[1..], n);
    } else {
      ScanLeavesOthers(ctx, m1, t1, dirs[1..], n);
    }
  }

  lemma AppendHead<T>(a: seq<T>, s: seq<T>)
    requires s != []
    ensures a + [s[0]] + s[1..] == a + s
  {
    assert s == [s[0]] + s[1..];
  }

  lemma DistinctTail(dirs: seq<EntryName>)
    requires Distinct(dirs) && dirs != []
    ensures Distinct(dirs[1..]) && dirs[0] !in dirs[1..]
  {
    forall i, j | 0 <= i < j < |dirs[1..]|
      ensures dirs[1..][i] != dirs[1..][j]
    {
      assert dirs[1..][i] == dirs[i + 1] && dirs[1..][j] == dirs[j + 1];
    }
  }

  /** Distinct new names are appended to the snapshot in listing order. */
  lemma {:induction false} ScanAppendsNames(ctx: Context, m: Store, t: Tables, dirs: seq<EntryName>)
    requires NamesMatchKeys(t.out) && Distinct(dirs)
    requires forall n :: n in dirs ==> n !in t.out.entries
    ensures var t1 := ScanFolders(ctx, m, t, dirs).1;
      NamesMatchKeys(t1.out) && t1.out.names == t.out.names + dirs
    decreases |dirs|
  {
    if dirs == [] {
      assert t.out.names + dirs == t.out.names;
    } else {
      FolderStepPutsEntry(ctx, m, t, dirs[0]);
      DistinctTail(dirs);
      var (m1, t1) := FolderStep(ctx, m, t, dirs[0]);
      ScanAppendsNames(ctx, m1, t1, dirs[1..]);
      AppendHead(t.out.names, dirs);
    }
  }

  /** Busy: the last completed snapshot (or `{}`) and nothing changes. */
  lemma BusyScanReturnsLast(env: Env, hooks: Hooks, w: World)
    ensures LoadSpec(env, hooks, true, w) == (LastOrEmpty(w.last), w)
  {
  }

  /** A scan that cannot create the cache directory or list the levels directory returns the last snapshot and keeps the store, the cache records and the last snapshot. */
  lemma FailedScanReturnsLast(env: Env, hooks: Hooks, w: World)
    requires IsFile(w.disk, env.cacheRoot) || !IsDir(MakeDir(w.disk, env.cacheRoot).value, env.levels)
    ensures var (r, w1) := LoadSpec(env, hooks, false, w);
      r == LastOrEmpty(w.last) && w1.store == w.store && w1.last == w.last
      && LoadCache(w1.cacheFile) == LoadCache(w.cacheFile)
  {
  }

  /**
   * A completed scan: the snapshot has exactly one entry per level folder, remembered as the
   * last result, and `cache.json` then holds the new mtimes, every folder's id, each entry's id
   * and every id that was already set; consistent timers stay consistent.
   */
  lemma CompletedScan(env: Env, hooks: Hooks, w: World)
    requires !IsFile(w.disk, env.cacheRoot)
    requires IsDir(MakeDir(w.disk, env.cacheRoot).value, env.levels)
    ensures var d1 := MakeDir(w.disk, env.cacheRoot).value;
      var (r, w1) := LoadSpec(env, hooks, false, w);
      var saved := LoadCache(w1.cacheFile);
      var before := LoadCache(EnsureCacheFile(w.cacheFile));
      w1.last == Some(r) && saved.mtimes == env.newMtimes
      && (forall n :: n in r.entries <==> n in d1[env.levels].children && IsDir(d1, JoinPath(env.levels, n)))
      && (forall n :: n in r.entries ==> n in saved.folderIds && r.entries[n].id == saved.folderIds[n])
      && (forall n :: n in before.folderIds && before.folderIds[n] != "" ==> n in saved.folderIds && saved.folderIds[n] == before.folderIds[n])
      && (AllTimersConsistent(before.folders) ==> AllTimersConsistent(saved.folders))
  {
    var d1 := MakeDir(w.disk, env.cacheRoot).value;
    var file := EnsureCacheFile(w.cacheFile);
    var cache := LoadCache(file);
    var dirs := FolderDirs(d1, env.levels).value;
    var ctx := Context(env, hooks, cache.mtimes, RepoIsEmpty(w.store));
    var t0 := Tables(d1, cache.folders, cache.folderIds, 0, EmptySnapshot);
    var t := ScanFolders(ctx, w.store, t0, dirs).1;
    assert LoadSpec(env, hooks, false, w).0 == t.out;
    forall n | n in dirs
      ensures n in t.folderIds && n in t.out.entries && t.out.entries[n].id == t.folderIds[n]
    {
      ScanGivesEntries(ctx, w.store, t0, dirs, n);
    }
    forall n | n !in dirs
      ensures n !in t.out.entries
    {
      ScanLeavesOthers(ctx, w.store, t0, dirs, n);
    }
    forall n | n in cache.folderIds && cache.folderIds[n] != ""
      ensures n in t.folderIds && t.folderIds[n] == cache.folderIds[n]
    {
      ScanKeepsSetIds(ctx, w.store, t0, dirs, n);
    }
    if AllTimersConsistent(cache.folders) {
      ScanKeepsTimers(ctx, w.store, t0, dirs);
    }
    SaveThenLoad(Cache(env.newMtimes, t.folders, t.folderIds));
  }

  /** When the levels directory lists each name once, the snapshot lists the level folders in the order of `FolderDirs`, by lower-cased name. */
  lemma CompletedScanOrder(env: Env, hooks: Hooks, w: World)
    requires !IsFile(w.disk, env.cacheRoot)
    requires IsDir(MakeDir(w.disk, env.cacheRoot).value, env.levels)
    requires Distinct(FolderDirs(MakeDir(w.disk, env.cacheRoot).value, env.levels).value)
    ensures var r := LoadSpec(env, hooks, false, w).0;
      SnapshotWellFormed(r) && r.names == FolderDirs(MakeDir(w.disk, env.cacheRoot).value, env.levels).value
  {
    var d1 := MakeDir(w.disk, env.cacheRoot).value;
    var cache := LoadCache(EnsureCacheFile(w.cacheFile));
    var dirs := FolderDirs(d1, env.levels).value;
    var ctx := Context(env, hooks, cache.mtimes, RepoIsEmpty(w.store));
    var t0 := Tables(d1, cache.folders, cache.folderIds, 0, EmptySnapshot);
    var r := ScanFolders(ctx, w.store, t0, dirs).1.out;
    assert LoadSpec(env, hooks, false, w).0 == r;
    ScanAppendsNames(ctx, w.store, t0, dirs);
    assert [] + dirs == dirs;
    DistinctNamesWellFormed(r, dirs);
  }

  /** A snapshot whose names are a listing of distinct folders, and match its keys, is well formed. */
  lemma DistinctNamesWellFormed(s: Snapshot, dirs: seq<EntryName>)
    requires NamesMatchKeys(s) && s.names == dirs && Distinct(dirs)
    ensures SnapshotWellFormed(s)
  {
  }
}
