/**
 * The content-addressable store of helpers/repository.py: a dictionary from SHA-1 digest to
 * an entry naming where the content lives, either a path (possibly a chain of archives
 * separated by '|') or a byte blob held in memory.
 */
module ContentStore {
  import opened Common
  import opened Text
  import opened Files

  /** A SHA-1 digest in hexadecimal. */
  type Hash = h: string | |h| == 40 witness "0000000000000000000000000000000000000000"

  /** What `ZipFile(BytesIO(outer)).read(member)` gives: the member's bytes, no such member, or no archive at all. */
  datatype ZipRead = Member(data: Bytes) | NoSuchMember | NotAnArchive

  /** The collaborators the store calls but does not define. */
  datatype Hooks = Hooks(sha1: Bytes -> Hash, abspath: Path -> Path, unzip: (Bytes, string) -> ZipRead)

  /**
   * The `file` field of an entry. A stored path string is kept as its '|'-separated parts
   * (`Join(Split(s, '|'), '|') == s`, so nothing is lost); a blob is the bytes themselves.
   */
  datatype Location = Chain(parts: seq<Path>) | Blob(data: Bytes)

  datatype Entry = Entry(hash: Hash, file: Location)

  type Store = map<Hash, Entry>

  /** The public reference `get_srl` hands out. */
  datatype Srl = Srl(hash: string, url: string)

  const SrlPrefix: string := "/sonolus/repository/"

  /** The path string an entry was stored under. */
  function StoredPath(loc: Location): Path
    requires loc.Chain?
  {
    Join(loc.parts, '|')
  }

  /** The entry was stored under a path string that names `file` once made absolute. */
  predicate AtPath(e: Entry, abspath: Path -> Path, file: Path) {
    e.file.Chain? && abspath(StoredPath(e.file)) == abspath(file)
  }

  /** The keys whose entries are stored under `file`. */
  function PathKeys(m: Store, abspath: Path -> Path, file: Path): set<Hash> {
    set k | k in m && AtPath(m[k], abspath, file)
  }

  /**
   * Every entry sits under its own hash, a chain has at least one part, and no two entries
   * are stored under the same absolute path. `add_file`, `add_bytes` and deletions keep this.
   */
  predicate WellFormed(m: Store, abspath: Path -> Path) {
    (forall k :: k in m ==> m[k].hash == k && (m[k].file.Chain? ==> |m[k].file.parts| >= 1))
    && (forall k1, k2 :: k1 in m && k2 in m && m[k1].file.Chain? && AtPath(m[k2], abspath, StoredPath(m[k1].file)) ==> k1 == k2)
  }

  /**
   * `_read_from_zip_chain(parts)`: the first part is read from disk, each later part is a
   * member of the archive read so far.
   */
  function ReadChain(disk: Disk, unzip: (Bytes, string) -> ZipRead, parts: seq<Path>): (r: Result<Bytes, IoError>)
    requires |parts| >= 1
    ensures |parts| == 1 ==> r == ReadBytes(disk, parts[0])
    ensures r.Ok? ==> IsFile(disk, parts[0])
    decreases |parts|
  {
    if |parts| == 1 then ReadBytes(disk, parts[0])
    else
      var member := parts[|parts| - 1];
      match ReadChain(disk, unzip, parts[..|parts| - 1])
      case Err(e) => Err(e)
      case Ok(outer) =>
        match unzip(outer, member)
        case Member(data) => Ok(data)
        case NoSuchMember => Err(MemberNotFound(member))
        case NotAnArchive => Err(BadArchive)
  }

  /** Once a prefix of the chain fails, the whole chain fails with the same error. */
  lemma {:induction false} ReadChainFailsFromPrefix(disk: Disk, unzip: (Bytes, string) -> ZipRead, parts: seq<Path>, i: nat)
    requires 1 <= i <= |parts|
    requires ReadChain(disk, unzip, parts[..i]).Err?
    ensures ReadChain(disk, unzip, parts) == ReadChain(disk, unzip, parts[..i])
    decreases |parts| - i
  {
    if i < |parts| {
      var init := parts[..|parts| - 1];
      assert init[..i] == parts[..i];
      ReadChainFailsFromPrefix(disk, unzip, init, i);
    } else {
      assert parts[..i] == parts;
    }
  }

  /** How `add_file` and `get_file` read a path string: through the archive chain when it holds '|', else from disk. */
  function ReadPathString(disk: Disk, unzip: (Bytes, string) -> ZipRead, s: Path): Result<Bytes, IoError> {
    if '|' in s then ReadChain(disk, unzip, Split(s, '|')) else ReadBytes(disk, s)
  }

  /** Both branches of that dispatch read the '|'-split of the string. */
  lemma ReadPathStringIsChain(disk: Disk, unzip: (Bytes, string) -> ZipRead, s: Path)
    ensures ReadPathString(disk, unzip, s) == ReadChain(disk, unzip, Split(s, '|'))
  {
    SplitSingle(s, '|');
  }

  /** `if h not in _map: _map[h] = entry`. */
  function Insert(m: Store, h: Hash, e: Entry): (r: Store)
    ensures h in r && (h in m ==> r[h] == m[h]) && (h !in m ==> r[h] == e)
    ensures r.Keys == m.Keys + {h}
    ensures forall k :: k in m ==> r[k] == m[k]
  {
    if h in m then m else m[h := e]
  }

  /** The store without the entries stored under `file`. */
  function WithoutPath(m: Store, abspath: Path -> Path, file: Path): (r: Store)
    ensures r.Keys == m.Keys - PathKeys(m, abspath, file)
    ensures forall k :: k in r ==> r[k] == m[k]
  {
    map k | k in m && !AtPath(m[k], abspath, file) :: m[k]
  }

  /**
   * The part of `add_file` after its existence check: drop the entry stored under the same
   * path, read and hash the content, and insert it unless that hash is already known.
   * A failing read still leaves the old entry dropped.
   */
  function AddChainSpec(m: Store, hooks: Hooks, disk: Disk, parts: seq<Path>): (r: (Result<Option<Hash>, IoError>, Store))
    requires |parts| >= 1
    ensures r.0.Ok? ==> r.0.value.Some? && r.0.value.value in r.1
    ensures r.0.Ok? <==> ReadChain(disk, hooks.unzip, parts).Ok?
    ensures r.0.Ok? ==> r.0.value.value == hooks.sha1(ReadChain(disk, hooks.unzip, parts).value)
    ensures forall k :: k in r.1 && AtPath(r.1[k], hooks.abspath, Join(parts, '|')) ==> r.0 == Ok(Some(k))
    ensures forall k :: k in m && !AtPath(m[k], hooks.abspath, Join(parts, '|')) ==> k in r.1 && r.1[k] == m[k]
    ensures forall k :: k in r.1 ==> k in m || r.0 == Ok(Some(k))
    ensures r.0.Ok? ==> var h := r.0.value.value;
      (h in m && !AtPath(m[h], hooks.abspath, Join(parts, '|')) && r.1[h] == m[h]) || AtPath(r.1[h], hooks.abspath, Join(parts, '|'))
  {
    var file := Join(parts, '|');
    var kept := WithoutPath(m, hooks.abspath, file);
    match ReadChain(disk, hooks.unzip, parts)
    case Err(e) => (Err(e), kept)
    case Ok(data) =>
      var h := hooks.sha1(data);
      (Ok(Some(h)), Insert(kept, h, Entry(h, Chain(parts))))
  }

  /** `add_file(file, error_on_file_nonexistent)`. */
  function AddFileSpec(m: Store, hooks: Hooks, disk: Disk, file: Path, errorOnNonexistent: bool): (r: (Result<Option<Hash>, IoError>, Store))
    ensures !errorOnNonexistent && !Exists(disk, file) ==> r == (Ok(None), m)
    ensures r.0 == Ok(None) ==> !errorOnNonexistent && r.1 == m
    ensures errorOnNonexistent || Exists(disk, file) ==> r == AddChainSpec(m, hooks, disk, Split(file, '|'))
  {
    if !errorOnNonexistent && !Exists(disk, file) then (Ok(None), m)
    else AddChainSpec(m, hooks, disk, Split(file, '|'))
  }

  /** Adding a file stores it under the path it was given. */
  lemma AddFileStoresUnderItsPath(m: Store, hooks: Hooks, disk: Disk, file: Path, errorOnNonexistent: bool)
    requires errorOnNonexistent || Exists(disk, file)
    ensures var r := AddFileSpec(m, hooks, disk, file, errorOnNonexistent);
      forall k :: k in r.1 && AtPath(r.1[k], hooks.abspath, file) ==> r.0 == Ok(Some(k))
  {
    JoinSplit(file, '|');
  }

  /** A disk holding one cover image, in a level folder whose name contains '|'. */
  function PipeFolderDisk(): Disk {
    map["levels/a|b/c.png" := File([1])]
  }

  /**
   * As written, `add_file` reads a path containing '|' as an archive chain: the cover of a
   * folder named `a|b` is looked up as the archive `levels/a`, which does not exist, so the
   * existing file cannot be added.
   */
  lemma PipeInFolderNameBreaksAddFile(m: Store, hooks: Hooks)
    ensures IsFile(PipeFolderDisk(), "levels/a|b/c.png")
    ensures AddFileSpec(m, hooks, PipeFolderDisk(), "levels/a|b/c.png", true).0.Err?
  {
    var file: Path := "levels/a|b/c.png";
    assert file == "levels/a" + ['|'] + "b/c.png";
    SplitHead("levels/a", '|', "b/c.png");
    assert !IsFile(PipeFolderDisk(), "levels/a");
  }

  /** Adding a file by its real path, as the level loader means it, succeeds for every existing file and stores its hash. */
  lemma AddRealFileSucceeds(m: Store, hooks: Hooks, disk: Disk, file: Path)
    requires IsFile(disk, file)
    ensures var r := AddChainSpec(m, hooks, disk, [file]);
      r.0 == Ok(Some(hooks.sha1(disk[file].data))) && hooks.sha1(disk[file].data) in r.1
  {
    assert ReadChain(disk, hooks.unzip, [file]) == ReadBytes(disk, file);
  }

  /** `get_file(h)`: None for an unknown hash, a blob as stored, a path read from disk or through its archives. */
  function GetFileSpec(m: Store, hooks: Hooks, disk: Disk, h: string): (r: Result<Option<Bytes>, IoError>)
    requires WellFormed(m, hooks.abspath)
    ensures h !in m ==> r == Ok(None)
    ensures h in m && m[h].file.Blob? ==> r == Ok(Some(m[h].file.data))
    ensures r.Ok? && r.value.Some? ==> h in m
    ensures h in m && m[h].file.Chain? ==> (r.Ok? <==> ReadChain(disk, hooks.unzip, m[h].file.parts).Ok?)
  {
    if h !in m then Ok(None)
    else match m[h].file
      case Blob(data) => Ok(Some(data))
      case Chain(parts) =>
        match ReadChain(disk, hooks.unzip, parts)
        case Ok(data) => Ok(Some(data))
        case Err(e) => Err(e)
  }

  /** For every entry `add_file` stores, reading its parts is exactly the split-or-open dispatch on its path string. */
  lemma GetFileReadsAsWritten(m: Store, hooks: Hooks, disk: Disk, h: Hash, s: Path)
    requires WellFormed(m, hooks.abspath)
    requires h in m && m[h].file == Chain(Split(s, '|'))
    ensures GetFileSpec(m, hooks, disk, h) == match ReadPathString(disk, hooks.unzip, s)
      case Ok(data) => Ok(Some(data))
      case Err(e) => Err(e)
  {
    ReadPathStringIsChain(disk, hooks.unzip, s);
  }

  /** `pop_hash(h)`: read the content, and drop the entry only when that content is non-empty. */
  function PopHashSpec(m: Store, hooks: Hooks, disk: Disk, h: string): (r: (Result<Option<Bytes>, IoError>, Store))
    requires WellFormed(m, hooks.abspath)
    ensures h !in m ==> r == (Ok(None), m)
    ensures r.0 == GetFileSpec(m, hooks, disk, h)
    ensures r.1 == m || (h in m && r.1 == m - {h})
    ensures h !in r.1 <==> h !in m || (r.0.Ok? && r.0.value.Some? && r.0.value.value != [])
  {
    var got := GetFileSpec(m, hooks, disk, h);
    if got.Ok? && got.value.Some? && got.value.value != [] then (got, m - {h}) else (got, m)
  }

  /** `add_bytes(data)`: insert the blob unless its hash is already present ("cannot be updated"). */
  function AddBytesSpec(m: Store, hooks: Hooks, data: Bytes): (r: Store)
    ensures hooks.sha1(data) in r && r.Keys == m.Keys + {hooks.sha1(data)}
    ensures forall k :: k in m ==> r[k] == m[k]
    ensures hooks.sha1(data) !in m ==> r[hooks.sha1(data)] == Entry(hooks.sha1(data), Blob(data))
  {
    var h := hooks.sha1(data);
    Insert(m, h, Entry(h, Blob(data)))
  }

  /** Dropping one key keeps the store well formed. */
  lemma RemovePreservesWellFormed(m: Store, abspath: Path -> Path, h: string)
    requires WellFormed(m, abspath)
    ensures WellFormed(m - {h}, abspath)
  {
  }

  /** `add_file` keeps every entry under its own hash and at most one entry per path. */
  lemma AddChainPreservesWellFormed(m: Store, hooks: Hooks, disk: Disk, parts: seq<Path>)
    requires WellFormed(m, hooks.abspath) && |parts| >= 1
    ensures WellFormed(AddChainSpec(m, hooks, disk, parts).1, hooks.abspath)
  {
    var file := Join(parts, '|');
    var kept := WithoutPath(m, hooks.abspath, file);
    assert WellFormed(kept, hooks.abspath);
    var r := AddChainSpec(m, hooks, disk, parts);
    if r.0.Ok? {
      var h := r.0.value.value;
      var e := Entry(h, Chain(parts));
      assert StoredPath(e.file) == file;
      if h !in kept {
        assert r.1 == kept[h := e];
        forall k | k in kept && kept[k].file.Chain?
          ensures !AtPath(kept[k], hooks.abspath, file)
        {
        }
      }
    }
  }

  /** `add_file` keeps the store well formed. */
  lemma AddFilePreservesWellFormed(m: Store, hooks: Hooks, disk: Disk, file: Path, errorOnNonexistent: bool)
    requires WellFormed(m, hooks.abspath)
    ensures WellFormed(AddFileSpec(m, hooks, disk, file, errorOnNonexistent).1, hooks.abspath)
  {
    if errorOnNonexistent || Exists(disk, file) {
      AddChainPreservesWellFormed(m, hooks, disk, Split(file, '|'));
    }
  }

  /** In a well-formed store, deleting the one key found under a path drops every entry under it. */
  lemma DropFoundKey(m: Store, abspath: Path -> Path, file: Path, k: Hash)
    requires WellFormed(m, abspath) && k in PathKeys(m, abspath, file)
    ensures m - {k} == WithoutPath(m, abspath, file)
  {
    forall k2 | k2 in m && AtPath(m[k2], abspath, file)
      ensures k2 == k
    {
      assert AtPath(m[k2], abspath, StoredPath(m[k].file));
    }
  }

  /** A newly added file reads back as the bytes it was hashed from. */
  lemma AddThenGet(m: Store, hooks: Hooks, disk: Disk, parts: seq<Path>)
    requires WellFormed(m, hooks.abspath) && |parts| >= 1
    requires ReadChain(disk, hooks.unzip, parts).Ok?
    requires hooks.sha1(ReadChain(disk, hooks.unzip, parts).value) !in m
    ensures var r := AddChainSpec(m, hooks, disk, parts);
      WellFormed(r.1, hooks.abspath) &&
      GetFileSpec(r.1, hooks, disk, r.0.value.value) == Ok(Some(ReadChain(disk, hooks.unzip, parts).value))
  {
    AddChainPreservesWellFormed(m, hooks, disk, parts);
  }

  /** A blob added under a new hash reads back unchanged. */
  lemma AddBytesThenGet(m: Store, hooks: Hooks, disk: Disk, data: Bytes)
    requires WellFormed(m, hooks.abspath)
    ensures WellFormed(AddBytesSpec(m, hooks, data), hooks.abspath)
    ensures hooks.sha1(data) !in m ==> GetFileSpec(AddBytesSpec(m, hooks, data), hooks, disk, hooks.sha1(data)) == Ok(Some(data))
  {
    var h := hooks.sha1(data);
    var r := AddBytesSpec(m, hooks, data);
    forall k1, k2 | k1 in r && k2 in r && r[k1].file.Chain? && AtPath(r[k2], hooks.abspath, StoredPath(r[k1].file))
      ensures k1 == k2
    {
      assert k1 in m && k2 in m;
    }
  }

  /** The store object: `_map` and the collaborators it calls. */
  class Repository {
    var entries: Store
    const hooks: Hooks

    ghost predicate Valid()
      reads this
    {
      WellFormed(entries, hooks.abspath)
    }

    constructor (hooks: Hooks)
      ensures Valid() && entries == map[] && this.hooks == hooks
    {
      this.hooks := hooks;
      entries := map[];
    }

    /** `get_hash_from_file_path(file)`: the key whose entry is stored under `file`, skipping blobs. */
    method GetHashFromFilePath(file: Path) returns (r: Option<Hash>)
      ensures r.Some? ==> r.value in PathKeys(entries, hooks.abspath, file)
      ensures r.None? <==> PathKeys(entries, hooks.abspath, file) == {}
    {
      var input := hooks.abspath(file);
      var remaining := entries.Keys;
      while remaining != {}
        invariant remaining <= entries.Keys
        invariant forall k :: k in entries && k !in remaining ==> !AtPath(entries[k], hooks.abspath, file)
        decreases |remaining|
      {
        var k :| k in remaining;
        var e := entries[k];
        if e.file.Chain? {
          var stored := hooks.abspath(Join(e.file.parts, '|'));
          if input == stored {
            return Some(k);
          }
        }
        remaining := remaining - {k};
      }
      return None;
    }

    /** `_read_from_zip_chain(parts)`, one part at a time. */
    method ReadFromZipChain(parts: seq<Path>, disk: Disk) returns (r: Result<Bytes, IoError>)
      requires |parts| >= 1
      ensures r == ReadChain(disk, hooks.unzip, parts)
    {
      var first := ReadBytes(disk, parts[0]);
      if first.Err? {
        ReadChainFailsFromPrefix(disk, hooks.unzip, parts, 1);
        return Err(first.error);
      }
      var current := first.value;
      var i := 1;
      while i < |parts|
        invariant 1 <= i <= |parts|
        invariant ReadChain(disk, hooks.unzip, parts[..i]) == Ok(current)
      {
        assert parts[..i + 1][..i] == parts[..i];
        match hooks.unzip(current, parts[i]) {
          case Member(data) =>
            current := data;
          case NoSuchMember =>
            ReadChainFailsFromPrefix(disk, hooks.unzip, parts, i + 1);
            return Err(MemberNotFound(parts[i]));
          case NotAnArchive =>
            ReadChainFailsFromPrefix(disk, hooks.unzip, parts, i + 1);
            return Err(BadArchive);
        }
        i := i + 1;
      }
      assert parts[..i] == parts;
      return Ok(current);
    }

    /** `add_file(file, error_on_file_nonexistent)`, as written. */
    method AddFile(file: Path, errorOnNonexistent: bool, disk: Disk) returns (r: Result<Option<Hash>, IoError>)
      requires Valid()
      modifies this
      ensures Valid()
      ensures (r, entries) == AddFileSpec(old(entries), hooks, disk, file, errorOnNonexistent)
    {
      if !errorOnNonexistent && !Exists(disk, file) {
        return Ok(None);
      }
      ghost var before := entries;
      var parts := Split(file, '|');
      JoinSplit(file, '|');
      AddChainPreservesWellFormed(before, hooks, disk, parts);
      var stale := GetHashFromFilePath(file);
      if stale.Some? {
        DropFoundKey(entries, hooks.abspath, file, stale.value);
        entries := entries - {stale.value};
      } else {
        assert entries == WithoutPath(entries, hooks.abspath, file);
      }
      var data: Result<Bytes, IoError>;
      if '|' in file {
        data := ReadFromZipChain(parts, disk);
      } else {
        data := ReadBytes(disk, file);
      }
      ReadPathStringIsChain(disk, hooks.unzip, file);
      if data.Err? {
        return Err(data.error);
      }
      var h := hooks.sha1(data.value);
      if h !in entries {
        entries := entries[h := Entry(h, Chain(parts))];
      }
      return Ok(Some(h));
    }

    /** `add_file` as its callers in helpers/levels.py mean it: the file at exactly this path, '|' or not. */
    method AddRealFile(file: Path, disk: Disk) returns (r: Result<Option<Hash>, IoError>)
      requires Valid()
      modifies this
      ensures Valid()
      ensures (r, entries) == AddChainSpec(old(entries), hooks, disk, [file])
    {
      ghost var before := entries;
      AddChainPreservesWellFormed(before, hooks, disk, [file]);
      var stale := GetHashFromFilePath(file);
      if stale.Some? {
        DropFoundKey(entries, hooks.abspath, file, stale.value);
        entries := entries - {stale.value};
      } else {
        assert entries == WithoutPath(entries, hooks.abspath, file);
      }
      var data := ReadBytes(disk, file);
      if data.Err? {
        return Err(data.error);
      }
      var h := hooks.sha1(data.value);
      if h !in entries {
        entries := entries[h := Entry(h, Chain([file]))];
      }
      return Ok(Some(h));
    }

    /** `add_bytes(data)`. */
    method AddBytes(data: Bytes)
      requires Valid()
      modifies this
      ensures Valid()
      ensures entries == AddBytesSpec(old(entries), hooks, data)
    {
      ghost var d: Disk := map[];
      AddBytesThenGet(entries, hooks, d, data);
      var h := hooks.sha1(data);
      if h !in entries {
        entries := entries[h := Entry(h, Blob(data))];
      }
    }

    /** `get_file(h)`: the content behind `h`, or None when the store does not know it. */
    method GetFile(h: string, disk: Disk) returns (r: Result<Option<Bytes>, IoError>)
      requires Valid()
      ensures r == GetFileSpec(entries, hooks, disk, h)
    {
      if h !in entries {
        return Ok(None);
      }
      match entries[h].file {
        case Blob(data) =>
          return Ok(Some(data));
        case Chain(parts) =>
          var read := ReadFromZipChain(parts, disk);
          if read.Err? {
            return Err(read.error);
          }
          return Ok(Some(read.value));
      }
    }

    /** `pop_hash(h)`. */
    method PopHash(h: string, disk: Disk) returns (r: Result<Option<Bytes>, IoError>)
      requires Valid()
      modifies this
      ensures Valid()
      ensures (r, entries) == PopHashSpec(old(entries), hooks, disk, h)
    {
      r := GetFile(h, disk);
      if r.Ok? && r.value.Some? && r.value.value != [] {
        RemovePreservesWellFormed(entries, hooks.abspath, h);
        entries := entries - {h};
      }
    }

    /** `get_srl(h)`: a public reference exactly for the hashes the store knows. */
    function GetSrl(h: string): (r: Option<Srl>)
      reads this
      ensures r.Some? <==> h in entries
      ensures r.Some? ==> r.value.hash == h && r.value.url == SrlPrefix + h
    {
      if h in entries then Some(Srl(h, SrlPrefix + h)) else None
    }
  }
}
