/**
 * The per-folder record of helpers/levels.py (`folder_state`), the transient-missing grace
 * helpers that work on it, the snapshot entry built from it, and the `cache.json` document
 * that holds all records between scans.
 */
module FolderStates {
  import opened Common

  /** A `folder_state` dictionary; an absent key reads as `None`, as `.get` does. */
  datatype FolderState = FolderState(
    name: Option<string>,
    coverRel: Option<string>,
    coverHash: Option<string>,
    backgroundHash: Option<string>,
    musicRel: Option<string>,
    musicHash: Option<string>,
    scoreRel: Option<string>,
    convertedScoreHash: Option<string>,
    coverMissingSince: Option<int>,
    backgroundMissingSince: Option<int>,
    musicMissingSince: Option<int>,
    scoreMissingSince: Option<int>)

  /** `{}`: the record of a folder seen for the first time. */
  const EmptyState: FolderState :=
    FolderState(None, None, None, None, None, None, None, None, None, None, None, None)

  /** `_GRACE_SECONDS`: how long an asset may be missing before its hashes are dropped. */
  const GraceSeconds: int := 10

  /** The four timer prefixes. */
  datatype Asset = Cover | Background | Music | Score

  function Prefix(a: Asset): string {
    match a
    case Cover => "cover"
    case Background => "background"
    case Music => "music"
    case Score => "score"
  }

  /** `_missing_key(prefix)`. */
  function MissingKey(prefix: string): (k: string)
    ensures |k| > |prefix| && k[..|prefix|] == prefix
  {
    prefix + "_missing_since"
  }

  /** The four timers live under four different keys, so they are independent fields here. */
  lemma MissingKeysDistinct(a: Asset, b: Asset)
    ensures MissingKey(Prefix(a)) == MissingKey(Prefix(b)) <==> a == b
  {
    var ka, kb := MissingKey(Prefix(a)), MissingKey(Prefix(b));
    if a != b {
      assert ka[0] == Prefix(a)[0] && kb[0] == Prefix(b)[0];
      assert ka[0] != kb[0];
    }
  }

  /** `folder_state.get(_missing_key(prefix))`. */
  function MissingSince(st: FolderState, a: Asset): Option<int> {
    match a
    case Cover => st.coverMissingSince
    case Background => st.backgroundMissingSince
    case Music => st.musicMissingSince
    case Score => st.scoreMissingSince
  }

  /** The record with every timer unset: what a scan reports and commits, timers aside. */
  function Untimed(st: FolderState): FolderState {
    st.(coverMissingSince := None, backgroundMissingSince := None, musicMissingSince := None, scoreMissingSince := None)
  }

  /** The record with one timer set to `v` (`None` removes it). */
  function WithMissing(st: FolderState, a: Asset, v: Option<int>): (r: FolderState)
    ensures MissingSince(r, a) == v
    ensures forall b :: b != a ==> MissingSince(r, b) == MissingSince(st, b)
    ensures Untimed(r) == Untimed(st)
  {
    match a
    case Cover => st.(coverMissingSince := v)
    case Background => st.(backgroundMissingSince := v)
    case Music => st.(musicMissingSince := v)
    case Score => st.(scoreMissingSince := v)
  }

  /** `_mark_missing`: start the timer at `now` unless it is already running. */
  function Marked(st: FolderState, a: Asset, now: int): (r: FolderState)
    ensures MissingSince(st, a).Some? ==> r == st
    ensures MissingSince(st, a).None? ==> MissingSince(r, a) == Some(now)
    ensures forall b :: b != a ==> MissingSince(r, b) == MissingSince(st, b)
    ensures Untimed(r) == Untimed(st)
  {
    if MissingSince(st, a).None? then WithMissing(st, a, Some(now)) else st
  }

  /** `_clear_missing`: remove the timer. */
  function Cleared(st: FolderState, a: Asset): (r: FolderState)
    ensures MissingSince(r, a).None?
    ensures forall b :: b != a ==> MissingSince(r, b) == MissingSince(st, b)
    ensures Untimed(r) == Untimed(st)
  {
    WithMissing(st, a, None)
  }

  /** `_missing_too_long`: the timer runs and at least the grace period has passed since it started. */
  function MissingTooLong(st: FolderState, a: Asset, now: int): (r: bool)
    ensures r ==> MissingSince(st, a).Some?
  {
    match MissingSince(st, a)
    case None => false
    case Some(since) => now - since >= GraceSeconds
  }

  /** Marking once per scan at the given times: the state after a run of scans that all found the asset missing. */
  function MarkedAt(st: FolderState, a: Asset, times: seq<int>): FolderState
    decreases |times|
  {
    if times == [] then st else MarkedAt(Marked(st, a, times[0]), a, times[1..])
  }

  /** Repeated marking never resets the timer: it keeps the time of the first mark. */
  lemma {:induction false} MarkingKeepsFirstTime(st: FolderState, a: Asset, times: seq<int>)
    requires MissingSince(st, a).None? && times != []
    ensures MissingSince(MarkedAt(st, a, times), a) == Some(times[0])
  {
    var st1 := Marked(st, a, times[0]);
    MarkingRunningTimer(st1, a, times[1..]);
  }

  /** Marking a running timer changes nothing. */
  lemma {:induction false} MarkingRunningTimer(st: FolderState, a: Asset, times: seq<int>)
    requires MissingSince(st, a).Some?
    ensures MarkedAt(st, a, times) == st
    decreases |times|
  {
    if times != [] {
      MarkingRunningTimer(Marked(st, a, times[0]), a, times[1..]);
    }
  }

  /** After a first mark at `t`, the asset counts as missing too long exactly from `t + GraceSeconds` on. */
  lemma GraceExpiresAt(st: FolderState, a: Asset, t: int, now: int)
    requires MissingSince(st, a).None?
    ensures MissingTooLong(Marked(st, a, t), a, now) <==> now >= t + GraceSeconds
  {
  }

  /** A cleared timer never counts as expired. */
  lemma ClearedNeverExpired(st: FolderState, a: Asset, now: int)
    ensures !MissingTooLong(Cleared(st, a), a, now)
  {
  }

  /** A mutable `folder_state` dictionary, as `_mark_missing` and `_clear_missing` see it. */
  class FolderRecord {
    var value: FolderState

    constructor (st: FolderState)
      ensures value == st
    {
      value := st;
    }

    /** `_mark_missing(folder_state, prefix, now)`. */
    method MarkMissing(a: Asset, now: int)
      modifies this
      ensures value == Marked(old(value), a, now)
    {
      if MissingSince(value, a).None? {
        value := WithMissing(value, a, Some(now));
      }
    }

    /** `_clear_missing(folder_state, prefix)`. */
    method ClearMissing(a: Asset)
      modifies this
      ensures value == Cleared(old(value), a)
    {
      value := WithMissing(value, a, None);
    }
  }

  /** One entry of the snapshot `load_levels_directory` returns. */
  datatype LevelEntry = LevelEntry(
    id: string,
    score: Option<string>,
    cover: Option<string>,
    background: Option<string>,
    music: Option<string>)

  /** The snapshot entry of a folder: its id and its committed hashes. */
  function EntryOf(id: string, st: FolderState): (e: LevelEntry)
    ensures e.id == id
    ensures e.score == st.convertedScoreHash && e.cover == st.coverHash
    ensures e.background == st.backgroundHash && e.music == st.musicHash
  {
    LevelEntry(id, st.convertedScoreHash, st.coverHash, st.backgroundHash, st.musicHash)
  }

  /** The snapshot only shows committed hashes: records that agree on them give the same entry, timers and rels aside. */
  lemma EntryIgnoresTimersAndRels(id: string, st: FolderState, st2: FolderState)
    requires st2.coverHash == st.coverHash && st2.backgroundHash == st.backgroundHash
    requires st2.musicHash == st.musicHash && st2.convertedScoreHash == st.convertedScoreHash
    ensures EntryOf(id, st2) == EntryOf(id, st)
  {
  }

  /** The parsed `cache.json` object; an absent key is `None`. */
  datatype CacheDoc = CacheDoc(
    mtimes: Option<map<string, int>>,
    folders: Option<map<string, FolderState>>,
    folderIds: Option<map<string, string>>)

  /** The cache file: not there yet, there but not a JSON object, or parsed. */
  datatype CacheFile = Missing | Unreadable | Parsed(doc: CacheDoc)

  /** The cache after `_load_cache`: every key present. */
  datatype Cache = Cache(
    mtimes: map<string, int>,
    folders: map<string, FolderState>,
    folderIds: map<string, string>)

  /** The document `_ensure_cache_json` writes when the file is missing. */
  const EmptyDoc: CacheDoc := CacheDoc(Some(map[]), Some(map[]), Some(map[]))

  /** `_ensure_cache_json`: create the file with empty tables when it is missing, else leave it. */
  function EnsureCacheFile(f: CacheFile): (r: CacheFile)
    ensures r != Missing
    ensures f != Missing ==> r == f
  {
    if f == Missing then Parsed(EmptyDoc) else f
  }

  function OrEmpty<K, V>(o: Option<map<K, V>>): map<K, V> {
    if o.Some? then o.value else map[]
  }

  /** `_load_cache`: a file that is not a JSON object reads as `{}`; each missing table defaults to empty. */
  function LoadCache(f: CacheFile): (c: Cache)
    ensures !f.Parsed? ==> c == Cache(map[], map[], map[])
    ensures f.Parsed? && f.doc.mtimes.Some? ==> c.mtimes == f.doc.mtimes.value
    ensures f.Parsed? && f.doc.folders.Some? ==> c.folders == f.doc.folders.value
    ensures f.Parsed? && f.doc.folderIds.Some? ==> c.folderIds == f.doc.folderIds.value
    ensures f.Parsed? && f.doc.mtimes.None? ==> c.mtimes == map[]
    ensures f.Parsed? && f.doc.folders.None? ==> c.folders == map[]
    ensures f.Parsed? && f.doc.folderIds.None? ==> c.folderIds == map[]
  {
    match f
    case Parsed(doc) => Cache(OrEmpty(doc.mtimes), OrEmpty(doc.folders), OrEmpty(doc.folderIds))
    case _ => Cache(map[], map[], map[])
  }

  /** `_save_cache`: the three tables written back. */
  function SaveCache(c: Cache): CacheDoc {
    CacheDoc(Some(c.mtimes), Some(c.folders), Some(c.folderIds))
  }

  /** What one scan saves, the next scan loads. */
  lemma SaveThenLoad(c: Cache)
    ensures LoadCache(EnsureCacheFile(Parsed(SaveCache(c)))) == c
  {
  }
}
