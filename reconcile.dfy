/**
 * The decision logic of the per-folder state machine of helpers/levels.py: the store queries
 * it makes, when it tries to confirm a candidate, and what each branch commits and evicts.
 * A branch's outcome is a `Verdict`: the new record and the hashes handed to `_repo_del_hash`,
 * in order.
 */
module Reconcile {
  import opened Common
  import opened FolderStates
  import opened Candidates
  import opened ContentStore

  /** `_repo_has_hash(h)`: a non-empty hash the store knows. */
  predicate RepoHasHash(m: Store, h: Option<string>) {
    Truthy(h) && h.value in m
  }

  /** `_repo_is_empty()`. */
  predicate RepoIsEmpty(m: Store) {
    |m| == 0
  }

  /** `_repo_del_hash(h)`: remove `h`; nothing happens for `None`, the empty string or an unknown hash. */
  function RepoDelHash(m: Store, h: Option<string>): (r: Store)
    ensures !RepoHasHash(m, h) ==> r == m
    ensures forall k :: k in r <==> k in m && !(Truthy(h) && k == h.value)
    ensures forall k :: k in r ==> r[k] == m[k]
  {
    if Truthy(h) then m - {h.value} else m
  }

  /** `_repo_del_hash` applied to each hash in turn. */
  function RepoDelHashes(m: Store, hs: seq<Option<string>>): (r: Store)
    ensures forall k :: k in r <==> k in m && forall i :: 0 <= i < |hs| ==> !(Truthy(hs[i]) && k == hs[i].value)
    ensures forall k :: k in r ==> r[k] == m[k]
    decreases |hs|
  {
    if hs == [] then m else RepoDelHashes(RepoDelHash(m, hs[0]), hs[1..])
  }

  /** Removing `hs1 + hs2` is removing `hs1`, then `hs2`. */
  lemma {:induction false} RepoDelHashesAppend(m: Store, hs1: seq<Option<string>>, hs2: seq<Option<string>>)
    ensures RepoDelHashes(m, hs1 + hs2) == RepoDelHashes(RepoDelHashes(m, hs1), hs2)
    decreases |hs1|
  {
    if hs1 == [] {
      assert hs1 + hs2 == hs2;
    } else {
      assert (hs1 + hs2)[1..] == hs1[1..] + hs2;
      RepoDelHashesAppend(RepoDelHash(m, hs1[0]), hs1[1..], hs2);
    }
  }

  /** Removing a one-hash list is one `_repo_del_hash`. */
  lemma RepoDelHashesSingle(m: Store, h: Option<string>)
    ensures RepoDelHashes(m, [h]) == RepoDelHash(m, h)
  {
    assert [h][1..] == [];
  }

  /** The hashes a removal list deletes: only its non-empty entries. */
  lemma RepoDelHashesRemovesOnlyListed(m: Store, hs: seq<Option<string>>, k: Hash)
    requires k in m && k !in RepoDelHashes(m, hs)
    ensures Some(k) in hs
  {
    var i :| 0 <= i < |hs| && Truthy(hs[i]) && k == hs[i].value;
  }

  /** The candidate's mtime: present in the new scan and different from (or absent in) the old one. */
  predicate MtimeChanged(rel: string, oldMtimes: map<string, int>, newMtimes: map<string, int>) {
    rel in newMtimes && (rel !in oldMtimes || oldMtimes[rel] != newMtimes[rel])
  }

  /** A committed hash that the store does not currently serve. */
  predicate NeedsWarm(h: Option<string>, repoEmpty: bool, m: Store) {
    h.Some? && (repoEmpty || !RepoHasHash(m, h))
  }

  /** The committed hash of a group: `cover_hash`, `music_hash` or `converted_score_hash`. */
  function CommittedHash(st: FolderState, g: Group): Option<string> {
    match g
    case CoverGroup => st.coverHash
    case MusicGroup => st.musicHash
    case ScoreGroup => st.convertedScoreHash
  }

  /** The missing timer of a group (the cover group also has the background timer). */
  function TimerOf(g: Group): Asset {
    match g
    case CoverGroup => Cover
    case MusicGroup => Music
    case ScoreGroup => Score
  }

  /** The record with group `g`'s fields cleared: what a step of `g` must leave alone. */
  function Outside(st: FolderState, g: Group): FolderState {
    match g
    case CoverGroup =>
      st.(coverRel := None, coverHash := None, backgroundHash := None, coverMissingSince := None, backgroundMissingSince := None)
    case MusicGroup => st.(musicRel := None, musicHash := None, musicMissingSince := None)
    case ScoreGroup => st.(scoreRel := None, convertedScoreHash := None, scoreMissingSince := None)
  }

  /** The record with a new committed rel and hash for group `g`. */
  function WithCommitted(st: FolderState, g: Group, rel: Option<string>, h: Option<string>): (r: FolderState)
    ensures CommittedRel(r, g) == rel && CommittedHash(r, g) == h
    ensures Outside(r, g) == Outside(st, g)
    ensures forall a :: MissingSince(r, a) == MissingSince(st, a)
    ensures r.backgroundHash == st.backgroundHash
  {
    match g
    case CoverGroup => st.(coverRel := rel, coverHash := h)
    case MusicGroup => st.(musicRel := rel, musicHash := h)
    case ScoreGroup => st.(scoreRel := rel, convertedScoreHash := h)
  }

  /**
   * `should_confirm`: the candidate differs from the committed file, its mtime changed, the
   * committed hash needs warming, or nothing is committed; for the cover also when no
   * background hash is committed.
   */
  predicate ShouldConfirm(st: FolderState, g: Group, candRel: string, oldMtimes: map<string, int>,
                          newMtimes: map<string, int>, repoEmpty: bool, m: Store) {
    var h := CommittedHash(st, g);
    Some(candRel) != CommittedRel(st, g)
    || MtimeChanged(candRel, oldMtimes, newMtimes)
    || NeedsWarm(h, repoEmpty, m)
    || h.None?
    || (g == CoverGroup && st.backgroundHash.None?)
  }

  /**
   * Confirmation is skipped exactly when the candidate is the committed file, its mtime is
   * unchanged, and its non-empty hash (and, for the cover, a background hash) is committed
   * and served by a non-empty store.
   */
  lemma SkipExactlyWhenUpToDate(st: FolderState, g: Group, candRel: string, oldMtimes: map<string, int>,
                                newMtimes: map<string, int>, repoEmpty: bool, m: Store)
    ensures !ShouldConfirm(st, g, candRel, oldMtimes, newMtimes, repoEmpty, m) <==>
      CommittedRel(st, g) == Some(candRel)
      && (candRel in newMtimes ==> candRel in oldMtimes && oldMtimes[candRel] == newMtimes[candRel])
      && !repoEmpty && Truthy(CommittedHash(st, g)) && CommittedHash(st, g).value in m
      && (g == CoverGroup ==> st.backgroundHash.Some?)
  {
  }

  /** The `_missing_too_long` check made right after `_mark_missing` in the same scan. */
  predicate GraceOver(st: FolderState, a: Asset, now: int) {
    MissingTooLong(Marked(st, a, now), a, now)
  }

  /** The grace period is over only for a timer started in an earlier scan, at least `GraceSeconds` ago. */
  lemma GraceOverMeans(st: FolderState, a: Asset, now: int)
    ensures GraceOver(st, a, now) <==> MissingSince(st, a).Some? && now - MissingSince(st, a).value >= GraceSeconds
  {
  }

  /** The outcome of one group's branch: the new record and the `_repo_del_hash` arguments, in order. */
  datatype Verdict = Verdict(state: FolderState, evict: seq<Option<string>>)

  /** The cover record with cover and background dropped (`None`). */
  function DropCover(st: FolderState): FolderState {
    st.(coverHash := None, backgroundHash := None, coverRel := None)
  }

  /** No cover candidate: keep through the grace period, then drop cover and background together. */
  function CoverMissing(st: FolderState, now: int): (v: Verdict)
    ensures st.coverHash.Some? && !GraceOver(st, Cover, now) ==>
      v.evict == [] && v.state == Marked(Marked(st, Cover, now), Background, now)
    ensures st.coverHash.Some? && GraceOver(st, Cover, now) ==>
      v.evict == [st.coverHash] + (if Truthy(st.backgroundHash) then [st.backgroundHash] else [])
      && v.state.coverRel.None? && v.state.coverHash.None? && v.state.backgroundHash.None?
      && MissingSince(v.state, Cover).None? && MissingSince(v.state, Background).None?
    ensures st.coverHash.None? ==>
      v.evict == [] && v.state.coverRel.None? && v.state.backgroundHash.None?
      && MissingSince(v.state, Cover) == MissingSince(st, Cover)
      && MissingSince(v.state, Background) == MissingSince(st, Background)
    ensures Outside(v.state, CoverGroup) == Outside(st, CoverGroup)
  {
    if st.coverHash.Some? then
      var marked := Marked(Marked(st, Cover, now), Background, now);
      if MissingTooLong(marked, Cover, now) then
        var evict := [st.coverHash] + (if Truthy(st.backgroundHash) then [st.backgroundHash] else []);
        Verdict(Cleared(Cleared(DropCover(marked), Cover), Background), evict)
      else Verdict(marked, [])
    else Verdict(DropCover(st), [])
  }

  /**
   * A cover candidate exists: both timers stop; a confirmed pair `(cover, background)` is
   * committed and the old hashes it replaces are evicted; a failed or skipped confirmation
   * keeps the committed cover.
   */
  function CoverPresent(st: FolderState, candRel: string, produced: Option<(string, string)>): (v: Verdict)
    ensures MissingSince(v.state, Cover).None? && MissingSince(v.state, Background).None?
    ensures produced.None? ==>
      v.evict == [] && v.state.coverRel == st.coverRel && v.state.coverHash == st.coverHash
      && v.state.backgroundHash == st.backgroundHash
    ensures produced.Some? ==>
      v.state.coverRel == Some(candRel) && v.state.coverHash == Some(produced.value.0)
      && v.state.backgroundHash == Some(produced.value.1)
    ensures produced.Some? ==> forall e :: e in v.evict <==>
      (e == st.coverHash && Truthy(e) && e != Some(produced.value.0))
      || (e == st.backgroundHash && Truthy(e) && e != Some(produced.value.1))
    ensures Outside(v.state, CoverGroup) == Outside(st, CoverGroup)
  {
    var cleared := Cleared(Cleared(st, Cover), Background);
    match produced
    case None => Verdict(cleared, [])
    case Some((c, b)) =>
      var evictCover := if Truthy(st.coverHash) && st.coverHash != Some(c) then [st.coverHash] else [];
      var evictBackground := if Truthy(st.backgroundHash) && st.backgroundHash != Some(b) then [st.backgroundHash] else [];
      Verdict(cleared.(coverHash := Some(c), backgroundHash := Some(b), coverRel := Some(candRel)), evictCover + evictBackground)
  }

  /** No music or score candidate: keep through the grace period, then drop the group. */
  function SlotMissing(st: FolderState, g: Group, now: int): (v: Verdict)
    requires g != CoverGroup
    ensures CommittedHash(st, g).Some? && !GraceOver(st, TimerOf(g), now) ==>
      v.evict == [] && v.state == Marked(st, TimerOf(g), now)
    ensures CommittedHash(st, g).Some? && GraceOver(st, TimerOf(g), now) ==>
      v.evict == [CommittedHash(st, g)] && CommittedRel(v.state, g).None? && CommittedHash(v.state, g).None?
      && MissingSince(v.state, TimerOf(g)).None?
    ensures CommittedHash(st, g).None? ==>
      v.evict == [] && CommittedRel(v.state, g).None?
      && MissingSince(v.state, TimerOf(g)) == MissingSince(st, TimerOf(g))
    ensures Outside(v.state, g) == Outside(st, g)
  {
    var a := TimerOf(g);
    if CommittedHash(st, g).Some? then
      var marked := Marked(st, a, now);
      if MissingTooLong(marked, a, now) then
        Verdict(Cleared(WithCommitted(marked, g, None, None), a), [CommittedHash(st, g)])
      else Verdict(marked, [])
    else Verdict(WithCommitted(st, g, None, None), [])
  }

  /**
   * A music or score candidate exists: the timer stops; a confirmed hash is committed and the
   * old hash it replaces is evicted; a failed or skipped confirmation keeps the committed one.
   */
  function SlotPresent(st: FolderState, g: Group, candRel: string, produced: Option<string>): (v: Verdict)
    requires g != CoverGroup
    ensures MissingSince(v.state, TimerOf(g)).None?
    ensures produced.None? ==>
      v.evict == [] && CommittedRel(v.state, g) == CommittedRel(st, g) && CommittedHash(v.state, g) == CommittedHash(st, g)
    ensures produced.Some? ==>
      CommittedRel(v.state, g) == Some(candRel) && CommittedHash(v.state, g) == produced
    ensures produced.Some? ==> forall e :: e in v.evict <==>
      e == CommittedHash(st, g) && Truthy(e) && e != produced
    ensures Outside(v.state, g) == Outside(st, g)
  {
    var a := TimerOf(g);
    var cleared := Cleared(st, a);
    match produced
    case None => Verdict(cleared, [])
    case Some(h) =>
      var before := CommittedHash(st, g);
      var evict := if Truthy(before) && before != Some(h) then [before] else [];
      Verdict(WithCommitted(cleared, g, Some(candRel), Some(h)), evict)
  }

  /** A running timer always belongs to a group with a committed hash (the cover's, for both cover timers). */
  predicate TimersConsistent(st: FolderState) {
    (st.coverMissingSince.Some? ==> st.coverHash.Some?)
    && (st.backgroundMissingSince.Some? ==> st.coverHash.Some?)
    && (st.musicMissingSince.Some? ==> st.musicHash.Some?)
    && (st.scoreMissingSince.Some? ==> st.convertedScoreHash.Some?)
  }

  /** Every branch keeps the timers consistent, and after a branch with a candidate none of its timers runs. */
  lemma VerdictsKeepTimersConsistent(st: FolderState, g: Group, candidate: Option<string>,
                                     cover: Option<(string, string)>, slot: Option<string>, now: int)
    requires TimersConsistent(st)
    ensures g == CoverGroup && candidate.None? ==> TimersConsistent(CoverMissing(st, now).state)
    ensures g == CoverGroup && candidate.Some? ==> TimersConsistent(CoverPresent(st, candidate.value, cover).state)
    ensures g != CoverGroup && candidate.None? ==> TimersConsistent(SlotMissing(st, g, now).state)
    ensures g != CoverGroup && candidate.Some? ==> TimersConsistent(SlotPresent(st, g, candidate.value, slot).state)
  {
  }

  /**
   * The state machine evicts a committed hash only when a replacement was confirmed or when
   * the grace period is over with no candidate, and only the group's own committed hashes.
   */
  lemma EvictionOnlyOnReplacementOrExpiry(st: FolderState, g: Group, candidate: Option<string>,
                                          cover: Option<(string, string)>, slot: Option<string>, now: int, e: Option<string>)
    ensures g == CoverGroup && candidate.None? && e in CoverMissing(st, now).evict ==>
      GraceOver(st, Cover, now) && (e == st.coverHash || e == st.backgroundHash)
    ensures g == CoverGroup && candidate.Some? && e in CoverPresent(st, candidate.value, cover).evict ==>
      cover.Some? && Truthy(e)
      && ((e == st.coverHash && e != Some(cover.value.0)) || (e == st.backgroundHash && e != Some(cover.value.1)))
    ensures g != CoverGroup && candidate.None? && e in SlotMissing(st, g, now).evict ==>
      GraceOver(st, TimerOf(g), now) && e == CommittedHash(st, g)
    ensures g != CoverGroup && candidate.Some? && e in SlotPresent(st, g, candidate.value, slot).evict ==>
      slot.Some? && Truthy(e) && e == CommittedHash(st, g) && e != slot
  {
  }
}
