/**
 * The filesystem as the dev tools see it: entries keyed by full path, the order in which
 * `Directory.Enumerate*` reports them, and the process's current directory.
 * A descriptor file holds the record it deserialises to; any other content is opaque text.
 */
module Disk {
  import opened Wrappers
  import opened Paths
  import opened Models

  datatype FileData = Text(text: string) | SerializedConfig(config: ModConfig)

  datatype Node = Directory | File(data: FileData)

  datatype FileSystem = FileSystem(entries: map<Path, Node>, order: seq<Path>, cwd: Path)

  /** No element of `s` occurs twice. */
  predicate NoDuplicates<T(==)>(s: seq<T>)
  {
    forall i, j :: 0 <= i < j < |s| ==> s[i] != s[j]
  }

  /** Every entry has its place in the enumeration order, and enumeration lists a path once. */
  ghost predicate Valid(fs: FileSystem)
  {
    (forall p :: p in fs.entries ==> p in fs.order) && NoDuplicates(fs.order)
  }

  function Resolve(fs: FileSystem, p: Path): Path
  {
    FullPath(fs.cwd, p)
  }

  predicate IsDirectoryAt(fs: FileSystem, full: Path)
  {
    full in fs.entries && fs.entries[full].Directory?
  }

  predicate IsFileAt(fs: FileSystem, full: Path)
  {
    full in fs.entries && fs.entries[full].File?
  }

  /** `Directory.Exists(p)`; false for the empty path. */
  predicate DirectoryExists(fs: FileSystem, p: Path)
  {
    p != [] && IsDirectoryAt(fs, Resolve(fs, p))
  }

  /** `File.Exists(p)`; false for the empty path. */
  predicate FileExists(fs: FileSystem, p: Path)
  {
    p != [] && IsFileAt(fs, Resolve(fs, p))
  }

  function ReadAllText(fs: FileSystem, p: Path): FileData
    requires FileExists(fs, p)
  {
    fs.entries[Resolve(fs, p)].data
  }

  /** `p` is an immediate entry of directory `d`. */
  predicate IsChild(d: Path, p: Path)
  {
    FileName(p) != [] && Combine(d, FileName(p)) == p
  }

  /** The entries of `ps`, in order, that are directories (or files) directly inside `d`. */
  function Children(fs: FileSystem, ps: seq<Path>, d: Path, directories: bool): (r: seq<Path>)
    ensures forall p :: p in r <==>
      p in ps && IsChild(d, p) && (if directories then IsDirectoryAt(fs, p) else IsFileAt(fs, p))
    ensures NoDuplicates(ps) ==> NoDuplicates(r)
  {
    if ps == [] then []
    else
      var p := ps[|ps| - 1];
      var keep := IsChild(d, p) && (if directories then IsDirectoryAt(fs, p) else IsFileAt(fs, p));
      Children(fs, ps[..|ps| - 1], d, directories) + (if keep then [p] else [])
  }

  /** `Directory.EnumerateDirectories(d)`, as full paths. */
  function EnumerateDirectories(fs: FileSystem, d: Path): seq<Path>
  {
    Children(fs, fs.order, Resolve(fs, d), true)
  }

  /** `Directory.EnumerateFiles(d)`, as full paths. */
  function EnumerateFiles(fs: FileSystem, d: Path): seq<Path>
  {
    Children(fs, fs.order, Resolve(fs, d), false)
  }

  /** `Directory.EnumerateFiles(d, "*.*", SearchOption.AllDirectories).Any()`. */
  predicate AnyFileUnder(fs: FileSystem, d: Path)
  {
    exists p :: p in fs.entries && fs.entries[p].File? && Under(Resolve(fs, d), p)
  }

  function AddEntry(fs: FileSystem, full: Path, node: Node): (r: FileSystem)
    ensures r.entries == fs.entries[full := node] && r.cwd == fs.cwd
    ensures Valid(fs) ==> Valid(r)
    ensures forall p :: p in fs.order ==> p in r.order
  {
    fs.(entries := fs.entries[full := node], order := if full in fs.order then fs.order else fs.order + [full])
  }

  /**
   * What `Directory.CreateDirectory` does to a full path: the path and every directory above it
   * (its lineage) are directories afterwards; every other entry keeps its value; nothing is removed.
   */
  function MakeDirectories(fs: FileSystem, full: Path): (r: FileSystem)
    ensures r.cwd == fs.cwd && fs.entries.Keys <= r.entries.Keys
    ensures Valid(fs) ==> Valid(r)
    ensures forall p :: p in Lineage(full) ==> IsDirectoryAt(r, p)
    ensures forall p :: p in r.entries && p !in Lineage(full) ==> p in fs.entries && r.entries[p] == fs.entries[p]
    ensures full != [] ==> IsDirectoryAt(r, full)
    ensures DirectoryName(full).Some? && DirectoryName(full).value != [] ==>
      IsDirectoryAt(r, DirectoryName(full).value)
    ensures forall p :: p in r.entries ==>
      r.entries[p] == Directory || (p in fs.entries && r.entries[p] == fs.entries[p])
    decreases |full|
  {
    if full == [] then fs
    else
      var parent := DirectoryName(full);
      var fs' := if parent.Some? then MakeDirectories(fs, parent.value) else fs;
      if IsDirectoryAt(fs', full) then fs' else AddEntry(fs', full, Directory)
  }

  /** `Directory.CreateDirectory(p)`. */
  function CreateDirectory(fs: FileSystem, p: Path): FileSystem
  {
    MakeDirectories(fs, Resolve(fs, p))
  }

  /** Creating a rooted directory touches only that directory and those above it. */
  lemma CreateDirectoryFrame(fs: FileSystem, p: Path)
    requires IsRooted(p)
    ensures var r := CreateDirectory(fs, p);
      forall q :: q in r.entries && q !in Lineage(p) ==> q in fs.entries && r.entries[q] == fs.entries[q]
  {
    assert Resolve(fs, p) == p;
  }

  /** `File.WriteAllText(p, data)`: creates or overwrites one file. */
  function WriteAllText(fs: FileSystem, p: Path, data: FileData): (r: FileSystem)
    ensures r.entries == fs.entries[Resolve(fs, p) := File(data)] && r.cwd == fs.cwd
    ensures Valid(fs) ==> Valid(r)
  {
    AddEntry(fs, Resolve(fs, p), File(data))
  }

  /** `Directory.Delete(d, true)`: the directory and everything below it disappear. */
  function DeleteTree(fs: FileSystem, d: Path): (r: FileSystem)
    ensures r.cwd == fs.cwd && r.order == fs.order
    ensures forall p :: p in r.entries <==> p in fs.entries && !AtOrUnder(Resolve(fs, d), p)
    ensures forall p :: p in r.entries ==> r.entries[p] == fs.entries[p]
    ensures Valid(fs) ==> Valid(r)
  {
    var full := Resolve(fs, d);
    fs.(entries := map p | p in fs.entries && !AtOrUnder(full, p) :: fs.entries[p])
  }
}
