/** FileManagerHelper and the two `Data` disk calls the caches make (`Data.write(to:)` and
    `Data(contentsOf:)`), over an abstract filesystem: a map from path to node, plus the set
    of paths the operating system refuses to touch. */
module FileManagerHelper {
  import opened Wrappers
  import opened Foundation
  import opened FileSystemPathHelper

  /** What sits at a path: a file with its bytes, or a directory. */
  datatype Node = File(contents: Data) | Directory

  /** The paths at which the operating system refuses a call (permissions, a read-only
      volume, I/O failure): `reading` refuses reading a file or listing a directory,
      `changing` refuses creating, writing or removing the entry. The two are independent,
      so an entry that cannot be removed may still be readable. */
  datatype Refusals = Refusals(reading: set<Path>, changing: set<Path>)

  /** The disk: its entries and its refusals, which never change. */
  datatype FileSystem = FileSystem(nodes: map<Path, Node>, refused: Refusals)

  /** The errors a `FileManager` or `Data` call can throw in this model. */
  datatype IoError = NoSuchFile | IsADirectory | FileInTheWay | PermissionDenied

  /** `fileExists(at:)`: something is at `p` and it is not a directory. */
  predicate FileExists(fs: FileSystem, p: Path) {
    p in fs.nodes && fs.nodes[p].File?
  }

  /** `directoryExists(at:)`: something is at `p` and it is a directory. */
  predicate DirectoryExists(fs: FileSystem, p: Path) {
    p in fs.nodes && fs.nodes[p].Directory?
  }

  /** A path is never both a file and a directory, an absent path is neither, and a
      present path is one of the two. */
  lemma ExistenceIsExclusive(fs: FileSystem, p: Path)
    ensures !(FileExists(fs, p) && DirectoryExists(fs, p))
    ensures p !in fs.nodes <==> !FileExists(fs, p) && !DirectoryExists(fs, p)
  {
  }

  /** The proper ancestors of `p`: every prefix that ends just before one of its slashes
      (the root itself excluded). */
  function Ancestors(p: Path): set<Path> {
    set i | 0 < i < |p| && p[i] == '/' :: p[..i]
  }

  /** A disk where every entry's ancestors are directories. */
  ghost predicate WellFormed(fs: FileSystem) {
    forall q, a | q in fs.nodes && a in Ancestors(q) :: DirectoryExists(fs, a)
  }

  /** `createDirectory(at:)` with intermediate directories: `p` and its missing ancestors
      are created; a file on the way, or a refused path that would have to be created,
      throws. */
  function CreateDirectory(fs: FileSystem, p: Path): (r: Result<FileSystem, IoError>)
    ensures r.Ok? <==>
      forall q | q in {p} + Ancestors(p) :: !FileExists(fs, q) && (q in fs.nodes || q !in fs.refused.changing)
    ensures r.Ok? ==> DirectoryExists(r.value, p)
    ensures r.Ok? ==> forall a | a in Ancestors(p) :: DirectoryExists(r.value, a)
    ensures r.Ok? ==> r.value.refused == fs.refused
    ensures r.Ok? ==> forall q | q in fs.nodes :: q in r.value.nodes && r.value.nodes[q] == fs.nodes[q]
    ensures r.Ok? ==> forall q | q in r.value.nodes :: q in fs.nodes || q in {p} + Ancestors(p)
  {
    var needed := {p} + Ancestors(p);
    if exists q | q in needed :: FileExists(fs, q) then Err(FileInTheWay)
    else if exists q | q in needed :: q !in fs.nodes && q in fs.refused.changing then Err(PermissionDenied)
    else Ok(fs.(nodes := fs.nodes + map q | q in needed && q !in fs.nodes :: Directory))
  }

  /** `createDirectoryIfNeeded(at:)`: nothing happens when the directory is already there;
      otherwise it is created with its parents. Either way, on success it exists, so a
      second call changes nothing. */
  function CreateDirectoryIfNeeded(fs: FileSystem, p: Path): (r: Result<FileSystem, IoError>)
    ensures DirectoryExists(fs, p) ==> r == Ok(fs)
    ensures r.Ok? ==> DirectoryExists(r.value, p)
    ensures !DirectoryExists(fs, p) ==> r == CreateDirectory(fs, p)
  {
    if DirectoryExists(fs, p) then Ok(fs) else CreateDirectory(fs, p)
  }

  /** `p` is an entry directly inside directory `d`. */
  predicate IsChildOf(p: Path, d: Path) {
    |p| > |d| + 1 && p[..|d|] == d && p[|d|] == '/' && '/' !in p[|d| + 1..]
  }

  /** `p` is an entry directly inside `d` whose name starts with a dot. */
  predicate IsHiddenChildOf(p: Path, d: Path) {
    IsChildOf(p, d) && p[|d| + 1] == '.'
  }

  /** `q` is `p` or lies somewhere below it. */
  predicate IsUnder(q: Path, p: Path) {
    q == p || (|q| > |p| && q[..|p|] == p && q[|p|] == '/')
  }

  /** The entries directly inside `d` that are not hidden. */
  function VisibleChildren(fs: FileSystem, d: Path): set<Path> {
    set p | p in fs.nodes && IsChildOf(p, d) && !IsHiddenChildOf(p, d)
  }

  /** Two different entries of one directory never lie below one another. */
  lemma ChildrenAreDisjoint(c: Path, c': Path, d: Path)
    requires IsChildOf(c, d) && IsChildOf(c', d) && c != c'
    ensures !IsUnder(c, c')
  {
    if |c| > |c'| && c[..|c'|] == c' {
      assert c[|c'|] == c[|d| + 1..][|c'| - |d| - 1];
    }
  }

  /** `contentsOfDirectory(at:)`: the non-hidden entries of `d` (order unspecified), or
      nothing when `d` is not a directory. */
  function ContentsOfDirectory(fs: FileSystem, d: Path): (r: Result<set<Path>, IoError>)
    ensures !DirectoryExists(fs, d) ==> r == Ok({})
    ensures r.Err? <==> DirectoryExists(fs, d) && d in fs.refused.reading
    ensures r.Ok? ==> forall p | p in r.value :: p in fs.nodes && IsChildOf(p, d) && !IsHiddenChildOf(p, d)
    ensures r.Ok? && DirectoryExists(fs, d) ==>
      forall p | p in fs.nodes && IsChildOf(p, d) && !IsHiddenChildOf(p, d) :: p in r.value
  {
    if !DirectoryExists(fs, d) then Ok({})
    else if d in fs.refused.reading then Err(PermissionDenied)
    else Ok(VisibleChildren(fs, d))
  }

  /** Removing `c` deletes `q`: a file takes only itself, a directory its whole subtree. */
  predicate RemovedWith(fs: FileSystem, c: Path, q: Path) {
    q == c || (DirectoryExists(fs, c) && IsUnder(q, c))
  }

  /** `FileManager.removeItem(at:)`: fails when nothing is there or the path is refused. */
  function RemoveItem(fs: FileSystem, p: Path): (r: Result<FileSystem, IoError>)
    ensures r.Ok? <==> p in fs.nodes && p !in fs.refused.changing
    ensures r.Ok? ==> r.value.refused == fs.refused
    ensures r.Ok? ==> forall q :: q in r.value.nodes <==> q in fs.nodes && !RemovedWith(fs, p, q)
    ensures r.Ok? ==> forall q | q in r.value.nodes :: r.value.nodes[q] == fs.nodes[q]
  {
    if p !in fs.nodes then Err(NoSuchFile)
    else if p in fs.refused.changing then Err(PermissionDenied)
    else Ok(fs.(nodes := map q | q in fs.nodes && !RemovedWith(fs, p, q) :: fs.nodes[q]))
  }

  /** `removeFile(at:)`: a no-op unless a file is at `p`; then exactly that file goes. */
  function RemoveFile(fs: FileSystem, p: Path): (r: Result<FileSystem, IoError>)
    ensures !FileExists(fs, p) ==> r == Ok(fs)
    ensures r.Err? <==> FileExists(fs, p) && p in fs.refused.changing
    ensures r.Ok? ==> !FileExists(r.value, p)
    ensures r.Ok? && FileExists(fs, p) ==> r.value == fs.(nodes := fs.nodes - {p})
    ensures r.Ok? ==> forall q | q != p :: SameEntry(r.value, fs, q)
  {
    if !FileExists(fs, p) then Ok(fs)
    else
      var r := RemoveItem(fs, p);
      assert r.Ok? ==> r.value.nodes == fs.nodes - {p};
      r
  }

  /** The disk with everything `removed` entries take with them deleted. */
  function Pruned(fs: FileSystem, removed: set<Path>): FileSystem {
    fs.(nodes := map q | q in fs.nodes && !(exists c | c in removed :: RemovedWith(fs, c, q)) :: fs.nodes[q])
  }

  /** What `removeContentsOfDirectory(at:)` leaves when it succeeds: every non-hidden entry
      of `d` is gone with its subtree; `d`, its hidden entries and everything outside it
      stay as they were. A missing directory is left alone. */
  function ClearedDirectory(fs: FileSystem, d: Path): (r: FileSystem)
    ensures r.refused == fs.refused
    ensures forall q | q in r.nodes :: q in fs.nodes && r.nodes[q] == fs.nodes[q]
    ensures DirectoryExists(r, d) <==> DirectoryExists(fs, d)
    ensures DirectoryExists(fs, d) ==> VisibleChildren(r, d) == {}
    ensures forall q | q in fs.nodes && IsHiddenChildOf(q, d) :: q in r.nodes
    ensures forall q | q in fs.nodes && !IsUnder(q, d) :: q in r.nodes
  {
    if !DirectoryExists(fs, d) then fs
    else
      var r := Pruned(fs, VisibleChildren(fs, d));
      assert VisibleChildren(r, d) == {} by {
        forall p | p in r.nodes && IsChildOf(p, d) && !IsHiddenChildOf(p, d) ensures false {
          assert RemovedWith(fs, p, p);
        }
      }
      assert forall q | q in fs.nodes && IsHiddenChildOf(q, d) :: q in r.nodes by {
        forall q, c | q in fs.nodes && IsHiddenChildOf(q, d) && c in VisibleChildren(fs, d)
          ensures !RemovedWith(fs, c, q)
        {
          ChildrenAreDisjoint(q, c, d);
        }
      }
      r
  }

  /** One more removal inside the loop of `removeContentsOfDirectory`: removing a not yet
      removed entry of `d` from the partly cleared disk prunes exactly its subtree too. */
  lemma RemoveNextChild(fs: FileSystem, d: Path, removed: set<Path>, c: Path)
    requires removed <= VisibleChildren(fs, d)
    requires c in VisibleChildren(fs, d) && c !in removed
    ensures c in Pruned(fs, removed).nodes && Pruned(fs, removed).nodes[c] == fs.nodes[c]
    ensures c !in fs.refused.changing ==> RemoveItem(Pruned(fs, removed), c) == Ok(Pruned(fs, removed + {c}))
    ensures c in fs.refused.changing ==> RemoveItem(Pruned(fs, removed), c).Err?
  {
    var p := Pruned(fs, removed);
    forall c' | c' in removed ensures !RemovedWith(fs, c', c) {
      ChildrenAreDisjoint(c, c', d);
    }
    assert c in p.nodes;
    if c !in fs.refused.changing {
      var r := RemoveItem(p, c).value;
      var want := Pruned(fs, removed + {c});
      assert r.nodes.Keys == want.nodes.Keys by {
        forall q ensures q in r.nodes <==> q in want.nodes {
          assert RemovedWith(p, c, q) <==> RemovedWith(fs, c, q);
        }
      }
      assert r.nodes == want.nodes;
    }
  }

  /** When `removeContentsOfDirectory(at:)` throws: the directory exists and either
      listing it is refused or removing one of its listed entries is. */
  predicate ClearFails(fs: FileSystem, d: Path) {
    DirectoryExists(fs, d) &&
    (d in fs.refused.reading || exists c | c in VisibleChildren(fs, d) :: c in fs.refused.changing)
  }

  /** What `removeContentsOfDirectory(at:)` may leave, whether or not it throws: the
      refusals and the directory are kept, surviving entries are unchanged, and whatever
      is gone went with one of the listed entries. */
  ghost predicate PartlyCleared(fs: FileSystem, d: Path, r: FileSystem) {
    && r.refused == fs.refused
    && (DirectoryExists(r, d) <==> DirectoryExists(fs, d))
    && (forall q | q in r.nodes :: q in fs.nodes && r.nodes[q] == fs.nodes[q])
    && (forall q | q in fs.nodes && q !in r.nodes ::
          exists c | c in VisibleChildren(fs, d) :: RemovedWith(fs, c, q))
  }

  /** `removeContentsOfDirectory(at:)`: deletes the listed entries one by one; the first
      refusal stops the loop and is thrown, leaving the entries already deleted deleted.
      It throws exactly when the listing or one of the removals is refused. */
  method RemoveContentsOfDirectory(fs: FileSystem, d: Path) returns (r: FileSystem, err: Option<IoError>)
    ensures !DirectoryExists(fs, d) ==> r == fs && err == None
    ensures err.Some? <==> ClearFails(fs, d)
    ensures err == None ==> r == ClearedDirectory(fs, d)
    ensures PartlyCleared(fs, d, r)
  {
    if !DirectoryExists(fs, d) {
      return fs, None;
    }
    var contents := ContentsOfDirectory(fs, d);
    if contents.Err? {
      return fs, Some(contents.error);
    }
    var remaining := contents.value;
    ghost var removed: set<Path> := {};
    r := fs;
    assert r == Pruned(fs, removed);
    while remaining != {}
      invariant remaining !! removed
      invariant remaining + removed == VisibleChildren(fs, d)
      invariant r == Pruned(fs, removed)
      invariant forall c | c in removed :: c !in fs.refused.changing
      decreases remaining
    {
      var c :| c in remaining;
      RemoveNextChild(fs, d, removed, c);
      var result := RemoveItem(r, c);
      if result.Err? {
        assert c in VisibleChildren(fs, d) && c in fs.refused.changing;
        return r, Some(result.error);
      }
      r := result.value;
      remaining := remaining - {c};
      removed := removed + {c};
    }
    err := None;
  }

  /** `Data.write(to:)`: refused paths, directories and paths whose parent directory is
      missing throw; otherwise the file is created or overwritten with exactly `data`. */
  function Write(fs: FileSystem, p: Path, data: Data): (r: Result<FileSystem, IoError>)
    ensures r.Ok? <==> p !in fs.refused.changing && !DirectoryExists(fs, p) && ParentIsDirectory(fs, p)
    ensures r.Ok? ==> r.value == fs.(nodes := fs.nodes[p := File(data)])
  {
    if p in fs.refused.changing then Err(PermissionDenied)
    else if DirectoryExists(fs, p) then Err(IsADirectory)
    else if !ParentIsDirectory(fs, p) then Err(NoSuchFile)
    else Ok(fs.(nodes := fs.nodes[p := File(data)]))
  }

  /** The directory `p` would be written into exists (a top-level or relative path has the
      root or working directory as its parent). */
  predicate ParentIsDirectory(fs: FileSystem, p: Path) {
    var i := LastIndexOf(p, '/');
    i <= 0 || DirectoryExists(fs, p[..i])
  }

  /** `Data(contentsOf:)`: the bytes of the file at `p`; a directory, a missing path or a
      refused path throws. */
  function Read(fs: FileSystem, p: Path): (r: Result<Data, IoError>)
    ensures r.Ok? <==> FileExists(fs, p) && p !in fs.refused.reading
    ensures r.Ok? ==> r.value == fs.nodes[p].contents
  {
    if DirectoryExists(fs, p) then Err(IsADirectory)
    else if !FileExists(fs, p) then Err(NoSuchFile)
    else if p in fs.refused.reading then Err(PermissionDenied)
    else Ok(fs.nodes[p].contents)
  }

  /** A successful write is read back unchanged (unless reading the path is refused), and
      touches no other path. */
  lemma WriteThenRead(fs: FileSystem, p: Path, data: Data)
    requires Write(fs, p, data).Ok?
    ensures Read(Write(fs, p, data).value, p) == if p in fs.refused.reading then Err(PermissionDenied) else Ok(data)
    ensures forall q | q != p :: Read(Write(fs, p, data).value, q) == Read(fs, q)
  {
  }

  /** In a well-formed disk nothing lies inside a directory that does not exist yet, at
      any depth and hidden or not, so a freshly created directory is empty. */
  lemma MissingDirectoryHasNoChildren(fs: FileSystem, d: Path)
    requires WellFormed(fs)
    requires d != [] && d !in fs.nodes
    ensures forall p | p in fs.nodes :: !IsUnder(p, d)
    ensures VisibleChildren(fs, d) == {}
  {
    forall p | p in fs.nodes ensures !IsUnder(p, d) && !IsChildOf(p, d) {
      if |p| > |d| && p[|d|] == '/' {
        assert p[..|d|] in Ancestors(p);
        assert DirectoryExists(fs, p[..|d|]);
      }
    }
  }

  /** A name joined to a directory with one slash is an entry of that directory, hidden
      exactly when the name starts with a dot. */
  lemma JoinIsChild(d: Path, name: string)
    requires IsName(name)
    ensures IsChildOf(d + "/" + name, d)
    ensures IsHiddenChildOf(d + "/" + name, d) <==> name[0] == '.'
  {
    var p := d + "/" + name;
    assert p[..|d|] == d;
    assert p[|d| + 1..] == name;
  }

  /** A second write to the same path makes the disk look as if only the second had
      happened. */
  lemma WriteTwice(fs: FileSystem, p: Path, first: Data, second: Data)
    requires Write(fs, p, first).Ok?
    ensures Write(Write(fs, p, first).value, p, second) == Write(fs, p, second)
  {
    var fs1 := Write(fs, p, first).value;
    var i := LastIndexOf(p, '/');
    if 0 < i {
      assert p[..i] != p;
      assert DirectoryExists(fs1, p[..i]) == DirectoryExists(fs, p[..i]);
    }
    assert fs1.nodes[p := File(second)] == fs.nodes[p := File(second)];
  }

  /** Two disks agree on path `q`: the same node or none, and the same refusal. */
  predicate SameEntry(a: FileSystem, b: FileSystem, q: Path) {
    (q in a.nodes <==> q in b.nodes) && (q in a.nodes ==> a.nodes[q] == b.nodes[q]) && (q in a.refused.reading <==> q in b.refused.reading) && (q in a.refused.changing <==> q in b.refused.changing)
  }
}
