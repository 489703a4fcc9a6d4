/**
 * How helpers/levels.py chooses, for each asset group of a level folder, the file to try:
 * the committed file while it exists, else the first file by lower-cased name that passes
 * the group's filter.
 */
module Candidates {
  import opened Common
  import opened Text
  import opened Sorting
  import opened Files
  import opened FolderStates

  const CoverSuffixes: set<string> := {".png", ".jpg", ".jpeg"}

  const MusicSuffixes: set<string> := {".mp3", ".ogg"}

  /** `_SCORE_EXTS`; the empty string admits names without an extension. */
  const ScoreExts: set<string> := {".sus", ".usc", ".json", ".gz", ".mmws", ".ccmmws", ".unchmmws", ""}

  /** `_is_candidate_score_file(path)`, as written. */
  predicate IsCandidateScoreFile(disk: Disk, p: Path) {
    IsFile(disk, p) && Lower(Suffix(Name(p))) in ScoreExts
  }

  /** A name starting with '.', such as `.DS_Store`: hidden, and never a chart. */
  predicate Hidden(name: string) {
    |name| > 0 && name[0] == '.'
  }

  /** `_is_candidate_score_file` as intended: a chart file, or a file without an extension that is not hidden. */
  predicate IsCandidateScoreFileFixed(disk: Disk, p: Path) {
    IsCandidateScoreFile(disk, p) && !Hidden(Name(p))
  }

  /** The suffix test and predicate test of `_first_matching_file`, for the entry `c` of `dir`. */
  predicate Passes(dir: Path, suffixes: Option<set<string>>, keep: Option<Path -> bool>, c: EntryName) {
    (suffixes.Some? ==> Lower(Suffix(c)) in suffixes.value)
    && (keep.Some? ==> keep.value(JoinPath(dir, c)))
  }

  /** `c` is a file listed in `dir` that passes the filters. */
  predicate Eligible(disk: Disk, dir: Path, suffixes: Option<set<string>>, keep: Option<Path -> bool>, c: EntryName) {
    IsDir(disk, dir) && c in disk[dir].children && IsFile(disk, JoinPath(dir, c)) && Passes(dir, suffixes, keep, c)
  }

  /** `p.name.lower()` for the entry path `JoinPath(dir, c)`, which is `Lower(c)`. */
  function NameLower(c: EntryName): string {
    Lower(c)
  }

  /** The entry names of `dir` that are files passing the filters, in listing order. */
  function EligibleNames(disk: Disk, dir: Path, suffixes: Option<set<string>>, keep: Option<Path -> bool>): (r: seq<EntryName>)
    ensures forall c :: c in r <==> Eligible(disk, dir, suffixes, keep, c)
  {
    match ListDir(disk, dir)
    case Err(_) => []
    case Ok(names) =>
      var files := Filter(names, (c: EntryName) => IsFile(disk, JoinPath(dir, c)));
      var bySuffix := if suffixes.Some? then Filter(files, (c: EntryName) => Lower(Suffix(c)) in suffixes.value) else files;
      if keep.Some? then Filter(bySuffix, (c: EntryName) => keep.value(JoinPath(dir, c))) else bySuffix
  }

  /**
   * `_first_matching_file(dir, suffixes=..., predicate=...)`, as the name of the entry it
   * returns (the path `JoinPath(dir, c)`), sorted by `p.name.lower()`, which is `Lower(c)`.
   */
  function FirstMatchingFile(disk: Disk, dir: Path, suffixes: Option<set<string>>, keep: Option<Path -> bool>): (r: Option<EntryName>)
    ensures r.Some? ==> Eligible(disk, dir, suffixes, keep, r.value)
    ensures r.Some? ==> forall c :: Eligible(disk, dir, suffixes, keep, c) ==> LexLe(NameLower(r.value), NameLower(c))
    ensures r.None? <==> forall c :: !Eligible(disk, dir, suffixes, keep, c)
  {
    var files := EligibleNames(disk, dir, suffixes, keep);
    var sorted := SortBy(files, NameLower);
    SortedHead(files, NameLower);
    if sorted == [] then None else Some(sorted[0])
  }

  /** The three asset groups. */
  datatype Group = CoverGroup | MusicGroup | ScoreGroup

  /** The committed rel of a group: `cover_rel`, `music_rel` or `score_rel`. */
  function CommittedRel(st: FolderState, g: Group): Option<string> {
    match g
    case CoverGroup => st.coverRel
    case MusicGroup => st.musicRel
    case ScoreGroup => st.scoreRel
  }

  /** The suffix filter a group passes to `_first_matching_file`. */
  function GroupSuffixes(g: Group): Option<set<string>> {
    match g
    case CoverGroup => Some(CoverSuffixes)
    case MusicGroup => Some(MusicSuffixes)
    case ScoreGroup => None
  }

  /** The chart test: `_is_candidate_score_file` as written, or, with `skipHidden`, the corrected test. */
  predicate ScoreFilter(disk: Disk, skipHidden: bool, p: Path) {
    if skipHidden then IsCandidateScoreFileFixed(disk, p) else IsCandidateScoreFile(disk, p)
  }

  /** The predicate a group passes to `_first_matching_file`: the chart test for the score, none otherwise. */
  function GroupPredicate(disk: Disk, g: Group, skipHidden: bool): Option<Path -> bool> {
    match g
    case ScoreGroup => Some((p: Path) => ScoreFilter(disk, skipHidden, p))
    case _ => None
  }

  /**
   * The candidate of a group, as its path relative to the levels directory: the committed
   * rel while `levels / rel` exists, else the first matching file of the folder.
   */
  function SelectCandidate(disk: Disk, levels: Path, folder: EntryName, rel: Option<string>,
                           suffixes: Option<set<string>>, keep: Option<Path -> bool>): (r: Option<string>)
    ensures Truthy(rel) && Exists(disk, JoinPath(levels, rel.value)) ==> r == rel
    ensures !(Truthy(rel) && Exists(disk, JoinPath(levels, rel.value))) ==>
      match FirstMatchingFile(disk, JoinPath(levels, folder), suffixes, keep)
      case None => r.None?
      case Some(c) => r == Some(JoinPath(folder, c))
    ensures r.Some? ==> Exists(disk, JoinPath(levels, r.value))
  {
    if Truthy(rel) && Exists(disk, JoinPath(levels, rel.value)) then rel
    else
      match FirstMatchingFile(disk, JoinPath(levels, folder), suffixes, keep)
      case None => None
      case Some(c) =>
        assert JoinPath(JoinPath(levels, folder), c) == JoinPath(levels, JoinPath(folder, c));
        Some(JoinPath(folder, c))
  }

  /** The candidate of group `g` for a folder whose record is `st`. */
  function CandidateOf(disk: Disk, levels: Path, folder: EntryName, st: FolderState, g: Group, skipHidden: bool): Option<string> {
    SelectCandidate(disk, levels, folder, CommittedRel(st, g), GroupSuffixes(g), GroupPredicate(disk, g, skipHidden))
  }

  /**
   * The cover and music filters are the suffix sets; the score filter admits exactly the files
   * with a chart extension or none, and with `skipHidden` only those whose name is not hidden.
   */
  lemma GroupFilters(disk: Disk, dir: Path, c: EntryName, skipHidden: bool)
    ensures Eligible(disk, dir, GroupSuffixes(CoverGroup), GroupPredicate(disk, CoverGroup, skipHidden), c) <==>
      IsDir(disk, dir) && c in disk[dir].children && IsFile(disk, JoinPath(dir, c)) && Lower(Suffix(c)) in CoverSuffixes
    ensures Eligible(disk, dir, GroupSuffixes(MusicGroup), GroupPredicate(disk, MusicGroup, skipHidden), c) <==>
      IsDir(disk, dir) && c in disk[dir].children && IsFile(disk, JoinPath(dir, c)) && Lower(Suffix(c)) in MusicSuffixes
    ensures Eligible(disk, dir, GroupSuffixes(ScoreGroup), GroupPredicate(disk, ScoreGroup, skipHidden), c) <==>
      IsDir(disk, dir) && c in disk[dir].children && IsFile(disk, JoinPath(dir, c)) && Lower(Suffix(c)) in ScoreExts
      && (skipHidden ==> !Hidden(c))
  {
    NameOfJoin(dir, c);
  }

  /** The level folders: the directories listed in `levels`, sorted by lower-cased name. */
  function FolderDirs(disk: Disk, levels: Path): (r: Result<seq<EntryName>, IoError>)
    ensures r.Ok? <==> IsDir(disk, levels)
    ensures r.Ok? ==> SortedBy(r.value, NameLower)
    ensures r.Ok? ==> forall c :: c in r.value <==> c in disk[levels].children && IsDir(disk, JoinPath(levels, c))
  {
    match ListDir(disk, levels)
    case Err(e) => Err(e)
    case Ok(names) =>
      var dirs := Filter(names, (c: EntryName) => IsDir(disk, JoinPath(levels, c)));
      var sorted := SortBy(dirs, NameLower);
      assert forall c :: c in sorted <==> c in dirs by {
        forall c
          ensures c in sorted <==> c in dirs
        {
          assert c in sorted <==> c in multiset(sorted);
          assert c in dirs <==> c in multiset(dirs);
        }
      }
      Ok(sorted)
  }

  /** A folder holding a Finder `.DS_Store` beside an extensionless chart file. */
  function FinderFolder(): Disk {
    map["levels/song" := Dir([".DS_Store", "chart"]),
        "levels/song/.DS_Store" := File([0]),
        "levels/song/chart" := File([1])]
  }

  /** Facts about the two entries of that folder. */
  lemma FinderFolderEntries()
    ensures Suffix(".DS_Store") == "" && Suffix("chart") == ""
    ensures JoinPath("levels/song", ".DS_Store") == "levels/song/.DS_Store"
    ensures JoinPath("levels/song", "chart") == "levels/song/chart"
    ensures Hidden(".DS_Store") && !Hidden("chart")
    ensures !LexLe(NameLower("chart"), NameLower(".DS_Store"))
  {
    DotfileHasNoSuffix("DS_Store");
    assert ".DS_Store" == "." + "DS_Store";
    NoDotNoSuffix("chart");
    assert NameLower("chart")[0] == 'c' && NameLower(".DS_Store")[0] == '.';
  }

  /** In a directory of the two entries `a` and `b`, an eligible `a` is the match when `b` is ineligible or sorts after it. */
  lemma FirstOfTwo(disk: Disk, dir: Path, suffixes: Option<set<string>>, keep: Option<Path -> bool>, a: EntryName, b: EntryName)
    requires IsDir(disk, dir) && (disk[dir].children == [a, b] || disk[dir].children == [b, a])
    requires Eligible(disk, dir, suffixes, keep, a)
    requires Eligible(disk, dir, suffixes, keep, b) ==> !LexLe(NameLower(b), NameLower(a))
    ensures FirstMatchingFile(disk, dir, suffixes, keep) == Some(a)
  {
    var r := FirstMatchingFile(disk, dir, suffixes, keep);
    assert r.value in disk[dir].children;
  }

  /**
   * As written, `.DS_Store` has no suffix, so it passes `_is_candidate_score_file`; it sorts
   * before `chart`, so it is the score candidate and the chart is never tried.
   */
  lemma HiddenFileShadowsChart()
    ensures FirstMatchingFile(FinderFolder(), "levels/song", GroupSuffixes(ScoreGroup),
      GroupPredicate(FinderFolder(), ScoreGroup, false)) == Some(".DS_Store")
  {
    var disk, dir := FinderFolder(), "levels/song";
    var hidden: EntryName := ".DS_Store";
    FinderFolderEntries();
    GroupFilters(disk, dir, hidden, false);
    assert Lower("") == "";
    FirstOfTwo(disk, dir, GroupSuffixes(ScoreGroup), GroupPredicate(disk, ScoreGroup, false), hidden, "chart");
  }

  /** With the corrected test, the same folder's score candidate is the chart. */
  lemma ChartChosenBesideHiddenFile()
    ensures FirstMatchingFile(FinderFolder(), "levels/song", GroupSuffixes(ScoreGroup),
      GroupPredicate(FinderFolder(), ScoreGroup, true)) == Some("chart")
  {
    var disk, dir := FinderFolder(), "levels/song";
    var chart: EntryName := "chart";
    var hidden: EntryName := ".DS_Store";
    FinderFolderEntries();
    GroupFilters(disk, dir, chart, true);
    GroupFilters(disk, dir, hidden, true);
    assert Lower("") == "";
    FirstOfTwo(disk, dir, GroupSuffixes(ScoreGroup), GroupPredicate(disk, ScoreGroup, true), chart, hidden);
  }

  /** The paths of that folder and its entries, relative to `levels`. */
  lemma FinderFolderRels()
    ensures JoinPath("levels", "song") == "levels/song"
    ensures JoinPath("song", ".DS_Store") == "song/.DS_Store" && JoinPath("song", "chart") == "song/chart"
  {
  }

  /** With nothing committed, a group's candidate is the first matching file of the folder. */
  lemma FreshFolderCandidate(disk: Disk, levels: Path, folder: EntryName, dir: Path, g: Group, skipHidden: bool,
                             c: EntryName, rel: string)
    requires dir == JoinPath(levels, folder)
    requires FirstMatchingFile(disk, dir, GroupSuffixes(g), GroupPredicate(disk, g, skipHidden)) == Some(c)
    requires rel == JoinPath(folder, c)
    ensures CandidateOf(disk, levels, folder, EmptyState, g, skipHidden) == Some(rel)
  {
    assert !Truthy(CommittedRel(EmptyState, g));
  }

  /** As written, the score candidate of the folder `song` with nothing committed is `song/.DS_Store`. */
  lemma FinderFolderScoreAsWritten()
    ensures CandidateOf(FinderFolder(), "levels", "song", EmptyState, ScoreGroup, false) == Some("song/.DS_Store")
  {
    var disk := FinderFolder();
    var song: EntryName := "song";
    var hidden: EntryName := ".DS_Store";
    FinderFolderRels();
    HiddenFileShadowsChart();
    FreshFolderCandidate(disk, "levels", song, "levels/song", ScoreGroup, false, hidden, "song/.DS_Store");
  }

  /** With the corrected test, the score candidate of the same folder is `song/chart`. */
  lemma FinderFolderScoreCorrected()
    ensures CandidateOf(FinderFolder(), "levels", "song", EmptyState, ScoreGroup, true) == Some("song/chart")
  {
    var disk := FinderFolder();
    var song: EntryName := "song";
    var chart: EntryName := "chart";
    FinderFolderRels();
    ChartChosenBesideHiddenFile();
    FreshFolderCandidate(disk, "levels", song, "levels/song", ScoreGroup, true, chart, "song/chart");
  }

  /** With the corrected test, the score candidate is never a hidden file, and a folder with a visible chart always has one. */
  lemma ScoreCandidateNeverHidden(disk: Disk, dir: Path, c: EntryName)
    ensures var r := FirstMatchingFile(disk, dir, GroupSuffixes(ScoreGroup), GroupPredicate(disk, ScoreGroup, true));
      (r.Some? ==> !Hidden(r.value)) &&
      (IsDir(disk, dir) && c in disk[dir].children && IsFile(disk, JoinPath(dir, c)) && Lower(Suffix(c)) in ScoreExts && !Hidden(c) ==> r.Some?)
  {
    var r := FirstMatchingFile(disk, dir, GroupSuffixes(ScoreGroup), GroupPredicate(disk, ScoreGroup, true));
    GroupFilters(disk, dir, c, true);
    if r.Some? {
      GroupFilters(disk, dir, r.value, true);
    }
  }
}
