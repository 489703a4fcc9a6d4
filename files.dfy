/**
 * The file system as the core sees it: a map from path to node, where a directory node
 * lists its entry names in the order the operating system returns them.
 */
module Files {
  import opened Common
  import opened Text

  /** The name of a directory entry: it never holds the separator. */
  type EntryName = s: string | '/' !in s

  datatype Node = File(data: Bytes) | Dir(children: seq<EntryName>)

  type Disk = map<Path, Node>

  /** The errors the file operations of the core can raise. */
  datatype IoError =
    | FileNotFound(path: Path)
    | IsADirectory(path: Path)
    | FileExists(path: Path)
    | MemberNotFound(member: string)
    | BadArchive

  /** `Path(dir) / name`. */
  function JoinPath(dir: Path, name: string): Path {
    dir + "/" + name
  }

  /** The `.name` of an entry path is the entry's name. */
  lemma NameOfJoin(dir: Path, name: EntryName)
    ensures Name(JoinPath(dir, name)) == name
  {
    var p := JoinPath(dir, name);
    var i := LastIndexOf(p, '/');
    assert p[|dir|] == '/';
    forall j | |dir| < j < |p|
      ensures p[j] != '/'
    {
      assert p[j] == name[j - |dir| - 1];
    }
    assert i == |dir|;
    assert p[i + 1..] == name;
  }

  predicate Exists(disk: Disk, p: Path) {
    p in disk
  }

  predicate IsFile(disk: Disk, p: Path) {
    p in disk && disk[p].File?
  }

  predicate IsDir(disk: Disk, p: Path) {
    p in disk && disk[p].Dir?
  }

  /** `open(p, "rb").read()`. */
  function ReadBytes(disk: Disk, p: Path): (r: Result<Bytes, IoError>)
    ensures r.Ok? <==> IsFile(disk, p)
    ensures r.Ok? ==> r.value == disk[p].data
  {
    if p !in disk then Err(FileNotFound(p))
    else match disk[p]
      case File(data) => Ok(data)
      case Dir(_) => Err(IsADirectory(p))
  }

  /** `Path(dir).iterdir()`, as the entry names (entry `c` is the path `JoinPath(dir, c)`); raises unless `dir` is a directory. */
  function ListDir(disk: Disk, dir: Path): (r: Result<seq<EntryName>, IoError>)
    ensures r.Ok? <==> IsDir(disk, dir)
    ensures r.Ok? ==> r.value == disk[dir].children
  {
    if IsDir(disk, dir) then Ok(disk[dir].children) else Err(FileNotFound(dir))
  }

  /** `Path(dir).mkdir(parents=True, exist_ok=True)`, for a directory whose parent is not modelled. */
  function MakeDir(disk: Disk, dir: Path): (r: Result<Disk, IoError>)
    ensures r.Ok? <==> !IsFile(disk, dir)
    ensures r.Ok? ==> IsDir(r.value, dir)
    ensures IsDir(disk, dir) ==> r == Ok(disk)
    ensures r.Ok? ==> forall p :: p != dir ==> (p in r.value <==> p in disk) && (p in disk ==> r.value[p] == disk[p])
  {
    if dir !in disk then Ok(disk[dir := Dir([])])
    else if disk[dir].Dir? then Ok(disk)
    else Err(FileExists(dir))
  }

  /**
   * `(Path(dir) / name).write_bytes(data)`: creates or replaces the file and lists it in `dir`.
   * Raises when `dir` is not a directory or the target is one.
   */
  function WriteFile(disk: Disk, dir: Path, name: EntryName, data: Bytes): (r: Result<Disk, IoError>)
    ensures r.Ok? <==> IsDir(disk, dir) && !IsDir(disk, JoinPath(dir, name))
    ensures r.Ok? ==> ReadBytes(r.value, JoinPath(dir, name)) == Ok(data)
    ensures r.Ok? ==> IsDir(r.value, dir) && name in r.value[dir].children
    ensures r.Ok? ==> forall p :: p != dir && p != JoinPath(dir, name) ==>
      (p in r.value <==> p in disk) && (p in disk ==> r.value[p] == disk[p])
  {
    var p := JoinPath(dir, name);
    if !IsDir(disk, dir) then Err(FileNotFound(p))
    else if IsDir(disk, p) then Err(IsADirectory(p))
    else
      var names := disk[dir].children;
      Ok(disk[p := File(data)][dir := Dir(if name in names then names else names + [name])])
  }
}
