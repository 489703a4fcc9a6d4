/**
 * The imperative `load_levels_directory` of helpers/levels.py: the process-wide state it keeps
 * (the store it edits in place, `cache.json`, the last completed snapshot), the confirm
 * helpers, the three group branches editing one `folder_state`, and the loop over the level
 * folders. Each method is proved to compute what module Scan specifies.
 */
module Loader {
  import opened Common
  import opened Files
  import opened FolderStates
  import opened Candidates
  import opened ContentStore
  import opened ScoreConversion
  import opened Reconcile
  import opened Scan

  class LevelsLoader {
    /** The shared `repo` whose `_map` the loader reads and edits. */
    const repo: Repository
    /** `cache.json` under the cache directory. */
    var cacheFile: CacheFile
    /** `_LAST_LEVELS_RESULT`, present once `_HAS_LAST_LEVELS_RESULT` is set. */
    var last: Option<Snapshot>

    ghost predicate Valid()
      reads this, repo
    {
      repo.Valid()
    }

    constructor (repo: Repository, cacheFile: CacheFile)
      requires repo.Valid()
      ensures Valid() && this.repo == repo && this.cacheFile == cacheFile && last.None?
    {
      this.repo := repo;
      this.cacheFile := cacheFile;
      last := None;
    }

    /** `_repo_del_hash(h)`: `del m[h]`, ignoring an empty hash and a missing key. */
    method RepoDelHash(h: Option<string>)
      requires repo.Valid()
      modifies repo
      ensures repo.Valid()
      ensures repo.entries == Reconcile.RepoDelHash(old(repo.entries), h)
    {
      if !Truthy(h) {
        return;
      }
      if h.value in repo.entries {
        RemovePreservesWellFormed(repo.entries, repo.hooks.abspath, h.value);
        repo.entries := repo.entries - {h.value};
      } else {
        assert repo.entries - {h.value} == repo.entries;
      }
    }

    /** How a confirm helper adds an asset: `repo.add_file(path)` as written, the real-path add once fixed. */
    method AddLevelFile(ctx: Context, path: Path, disk: Disk) returns (r: Result<Option<Hash>, IoError>)
      requires repo.Valid() && ctx.hooks == repo.hooks
      modifies repo
      ensures repo.Valid()
      ensures (r, repo.entries) == AddPathSpec(ctx.env.fixes, old(repo.entries), ctx.hooks, disk, path)
    {
      if ctx.env.fixes.addByRealPath {
        r := repo.AddRealFile(path, disk);
      } else {
        r := repo.AddFile(path, true, disk);
      }
    }

    /** `_confirm_music`. */
    method ConfirmMusic(ctx: Context, disk: Disk, musicPath: Path) returns (r: Option<string>)
      requires repo.Valid() && ctx.hooks == repo.hooks
      modifies repo
      ensures repo.Valid()
      ensures (r, repo.entries) == ConfirmMusicSpec(ctx, old(repo.entries), disk, musicPath)
    {
      var added := AddLevelFile(ctx, musicPath, disk);
      if added.Err? {
        return None;
      }
      return Some(added.value.value);
    }

    /** `_confirm_score`. */
    method ConfirmScore(ctx: Context, disk: Disk, scorePath: Path, folderCache: Path) returns (r: Option<string>, diskOut: Disk)
      requires repo.Valid() && ctx.hooks == repo.hooks
      modifies repo
      ensures repo.Valid()
      ensures (r, repo.entries, diskOut) == ConfirmScoreSpec(ctx, old(repo.entries), disk, scorePath, folderCache)
    {
      var convertedPath := JoinPath(folderCache, ConvertedName);
      var converted := ConvertScoreToCache(disk, scorePath, folderCache, ctx.env.conv);
      if converted.Err? {
        return None, disk;
      }
      var ok := converted.value.0;
      diskOut := converted.value.1;
      if !ok || !Exists(diskOut, convertedPath) {
        return None, diskOut;
      }
      var added := AddLevelFile(ctx, convertedPath, diskOut);
      if added.Err? {
        return None, diskOut;
      }
      return Some(added.value.value), diskOut;
    }

    /** `_confirm_cover_and_background`. */
    method ConfirmCoverAndBackground(ctx: Context, disk: Disk, coverPath: Path, folderCache: Path)
      returns (r: Option<(string, string)>, diskOut: Disk)
      requires repo.Valid() && ctx.hooks == repo.hooks
      modifies repo
      ensures repo.Valid()
      ensures (r, repo.entries, diskOut) == ConfirmCoverSpec(ctx, old(repo.entries), disk, coverPath, folderCache)
    {
      var made := MakeDir(disk, folderCache);
      if made.Err? {
        return None, disk;
      }
      diskOut := made.value;
      var image := ReadBytes(diskOut, coverPath);
      if image.Err? {
        return None, diskOut;
      }
      var png := ctx.env.background(ctx.env.bgVersion, image.value);
      if png.None? {
        return None, diskOut;
      }
      var written := WriteFile(diskOut, folderCache, BackgroundName, png.value);
      if written.Err? {
        return None, diskOut;
      }
      diskOut := written.value;
      var coverAdded := AddLevelFile(ctx, coverPath, diskOut);
      if coverAdded.Err? {
        return None, diskOut;
      }
      var backgroundAdded := AddLevelFile(ctx, JoinPath(folderCache, BackgroundName), diskOut);
      if backgroundAdded.Err? {
        return None, diskOut;
      }
      return Some((coverAdded.value.value, backgroundAdded.value.value)), diskOut;
    }

    /** The cover and background branch, editing the folder's record in place. */
    method ReconcileCover(ctx: Context, fs: FolderRecord, disk: Disk, candidate: Option<string>, folderCache: Path)
      returns (diskOut: Disk)
      requires repo.Valid() && ctx.hooks == repo.hooks
      modifies repo, fs
      ensures repo.Valid()
      ensures (fs.value, repo.entries, diskOut) == CoverStep(ctx, old(repo.entries), disk, old(fs.value), candidate, folderCache)
    {
      var st := fs.value;
      var now := ctx.env.now;
      diskOut := disk;
      if candidate.None? {
        if st.coverHash.Some? {
          fs.MarkMissing(Cover, now);
          fs.MarkMissing(Background, now);
          if MissingTooLong(fs.value, Cover, now) {
            ghost var m0 := repo.entries;
            RepoDelHash(st.coverHash);
            if Truthy(st.backgroundHash) {
              RepoDelHash(st.backgroundHash);
              RepoDelHashesAppend(m0, [st.coverHash], [st.backgroundHash]);
              RepoDelHashesSingle(Reconcile.RepoDelHash(m0, st.coverHash), st.backgroundHash);
            } else {
              assert [st.coverHash] + [] == [st.coverHash];
            }
            RepoDelHashesSingle(m0, st.coverHash);
            fs.value := fs.value.(coverHash := None, backgroundHash := None, coverRel := None);
            fs.ClearMissing(Cover);
            fs.ClearMissing(Background);
          }
        } else {
          fs.value := fs.value.(coverHash := None, backgroundHash := None, coverRel := None);
        }
      } else {
        fs.ClearMissing(Cover);
        fs.ClearMissing(Background);
        var rel := candidate.value;
        if ShouldConfirm(st, CoverGroup, rel, ctx.oldMtimes, ctx.env.newMtimes, ctx.repoEmpty, repo.entries) {
          var confirmed;
          confirmed, diskOut := ConfirmCoverAndBackground(ctx, disk, JoinPath(ctx.env.levels, rel), folderCache);
          if confirmed.Some? {
            var (c, b) := confirmed.value;
            ghost var m0 := repo.entries;
            ghost var evictCover := if Truthy(st.coverHash) && st.coverHash != Some(c) then [st.coverHash] else [];
            ghost var evictBackground := if Truthy(st.backgroundHash) && st.backgroundHash != Some(b) then [st.backgroundHash] else [];
            if Truthy(st.coverHash) && st.coverHash != Some(c) {
              RepoDelHash(st.coverHash);
              RepoDelHashesSingle(m0, st.coverHash);
            }
            ghost var m1 := repo.entries;
            if Truthy(st.backgroundHash) && st.backgroundHash != Some(b) {
              RepoDelHash(st.backgroundHash);
              RepoDelHashesSingle(m1, st.backgroundHash);
            }
            RepoDelHashesAppend(m0, evictCover, evictBackground);
            fs.value := fs.value.(coverHash := Some(c), backgroundHash := Some(b), coverRel := Some(rel));
          }
        }
      }
    }

    /** The music or score branch, editing the folder's record in place. */
    method ReconcileSlot(ctx: Context, fs: FolderRecord, g: Group, disk: Disk, candidate: Option<string>, folderCache: Path)
      returns (diskOut: Disk)
      requires g != CoverGroup
      requires repo.Valid() && ctx.hooks == repo.hooks
      modifies repo, fs
      ensures repo.Valid()
      ensures (fs.value, repo.entries, diskOut) == SlotStep(ctx, g, old(repo.entries), disk, old(fs.value), candidate, folderCache)
    {
      var st := fs.value;
      var now := ctx.env.now;
      var a := TimerOf(g);
      var committed := CommittedHash(st, g);
      diskOut := disk;
      if candidate.None? {
        if committed.Some? {
          fs.MarkMissing(a, now);
          if MissingTooLong(fs.value, a, now) {
            RepoDelHashesSingle(repo.entries, committed);
            RepoDelHash(committed);
            fs.value := WithCommitted(fs.value, g, None, None);
            fs.ClearMissing(a);
          }
        } else {
          fs.value := WithCommitted(fs.value, g, None, None);
        }
      } else {
        fs.ClearMissing(a);
        var rel := candidate.value;
        if ShouldConfirm(st, g, rel, ctx.oldMtimes, ctx.env.newMtimes, ctx.repoEmpty, repo.entries) {
          var confirmed;
          if g == MusicGroup {
            confirmed := ConfirmMusic(ctx, disk, JoinPath(ctx.env.levels, rel));
          } else {
            confirmed, diskOut := ConfirmScore(ctx, disk, JoinPath(ctx.env.levels, rel), folderCache);
          }
          if confirmed.Some? {
            if Truthy(committed) && committed != confirmed {
              RepoDelHashesSingle(repo.entries, committed);
              RepoDelHash(committed);
            }
            fs.value := WithCommitted(fs.value, g, Some(rel), confirmed);
          }
        }
      }
    }

    /** The three group branches of one folder, on candidates chosen before any of them runs. */
    method ReconcileGroups(ctx: Context, fs: FolderRecord, disk: Disk, name: EntryName, folderCache: Path) returns (diskOut: Disk)
      requires repo.Valid() && ctx.hooks == repo.hooks
      modifies repo, fs
      ensures repo.Valid()
      ensures (fs.value, repo.entries, diskOut) == FolderGroups(ctx, old(repo.entries), disk, old(fs.value), name, folderCache)
    {
      var coverCandidate := CandidateOf(disk, ctx.env.levels, name, fs.value, CoverGroup, ctx.env.fixes.skipHiddenCharts);
      var musicCandidate := CandidateOf(disk, ctx.env.levels, name, fs.value, MusicGroup, ctx.env.fixes.skipHiddenCharts);
      var scoreCandidate := CandidateOf(disk, ctx.env.levels, name, fs.value, ScoreGroup, ctx.env.fixes.skipHiddenCharts);
      var d1 := ReconcileCover(ctx, fs, disk, coverCandidate, folderCache);
      var d2 := ReconcileSlot(ctx, fs, MusicGroup, d1, musicCandidate, folderCache);
      diskOut := ReconcileSlot(ctx, fs, ScoreGroup, d2, scoreCandidate, folderCache);
    }

    /** One iteration of the loop: the folder's id, its record, the three branches, and the snapshot entry. */
    method ReconcileFolder(ctx: Context, t: Tables, name: EntryName) returns (t1: Tables)
      requires repo.Valid() && ctx.hooks == repo.hooks
      modifies repo
      ensures repo.Valid()
      ensures (repo.entries, t1) == FolderStep(ctx, old(repo.entries), t, name)
    {
      var (id, ids, minted) := FolderId(t.folderIds, name, ctx.env.freshIds, t.minted);
      var fs := new FolderRecord(StartRecord(t.folders, id, name));
      var folderCache := JoinPath(ctx.env.cacheRoot, id);
      var d := ReconcileGroups(ctx, fs, t.disk, name, folderCache);
      t1 := Tables(d, t.folders[id := fs.value], ids, minted, Put(t.out, name, EntryOf(id, fs.value)));
    }

    /** The `for` loop over the level folders, in order. */
    method ReconcileFolders(ctx: Context, t0: Tables, dirs: seq<EntryName>) returns (t: Tables)
      requires repo.Valid() && ctx.hooks == repo.hooks
      modifies repo
      ensures repo.Valid()
      ensures (repo.entries, t) == ScanFolders(ctx, old(repo.entries), t0, dirs)
    {
      ghost var m0 := repo.entries;
      t := t0;
      var i := 0;
      while i < |dirs|
        invariant 0 <= i <= |dirs|
        invariant repo.Valid()
        invariant ScanFolders(ctx, repo.entries, t, dirs[i..]) == ScanFolders(ctx, m0, t0, dirs)
      {
        assert dirs[i..][0] == dirs[i] && dirs[i..][1..] == dirs[i + 1..];
        t := ReconcileFolder(ctx, t, dirs[i]);
        i := i + 1;
      }
    }

    /**
     * `load_levels_directory`: `busy` when another scan holds the lock. Creates the cache
     * directory and file, loads the cache, lists the level folders, reconciles each one, saves
     * the cache and remembers the snapshot; a failure before the loop returns the last one.
     */
    method LoadLevelsDirectory(env: Env, busy: bool, disk: Disk) returns (result: Snapshot, diskOut: Disk)
      requires Valid()
      modifies this, repo
      ensures Valid()
      ensures (result, World(repo.entries, diskOut, cacheFile, last))
        == LoadSpec(env, repo.hooks, busy, World(old(repo.entries), disk, old(cacheFile), old(last)))
    {
      if busy {
        return LastOrEmpty(last), disk;
      }
      var made := MakeDir(disk, env.cacheRoot);
      if made.Err? {
        return LastOrEmpty(last), disk;
      }
      diskOut := made.value;
      cacheFile := EnsureCacheFile(cacheFile);
      var cache := LoadCache(cacheFile);
      var listing := FolderDirs(diskOut, env.levels);
      if listing.Err? {
        return LastOrEmpty(last), diskOut;
      }
      var dirs := listing.value;
      var ctx := Context(env, repo.hooks, cache.mtimes, RepoIsEmpty(repo.entries));
      var t := ReconcileFolders(ctx, Tables(diskOut, cache.folders, cache.folderIds, 0, EmptySnapshot), dirs);
      cacheFile := Parsed(SaveCache(Cache(env.newMtimes, t.folders, t.folderIds)));
      last := Some(t.out);
      return t.out, t.disk;
    }
  }
}
