/** FileSystemPathHelper: naming files after URLs and joining path strings, with the
    semantics of Foundation's `lastPathComponent` and `appendingPathComponent` on plain
    slash-separated strings. */
module FileSystemPathHelper {
  import opened Foundation

  /** A filesystem path. */
  type Path = string

  /** A single path component: non-empty and free of separators. */
  predicate IsName(c: string) {
    c != [] && '/' !in c
  }

  /** `p` without its trailing run of slashes. */
  function StripTrailingSlashes(p: string): (r: string)
    ensures r <= p
    ensures r == [] || r[|r| - 1] != '/'
    ensures forall i :: |r| <= i < |p| ==> p[i] == '/'
  {
    if p != [] && p[|p| - 1] == '/' then StripTrailingSlashes(p[..|p| - 1]) else p
  }

  /** `p` without its leading run of slashes. */
  function StripLeadingSlashes(p: string): (r: string)
    ensures |r| <= |p| && r == p[|p| - |r|..]
    ensures r == [] || r[0] != '/'
    ensures forall i :: 0 <= i < |p| - |r| ==> p[i] == '/'
  {
    if p != [] && p[0] == '/' then StripLeadingSlashes(p[1..]) else p
  }

  /** The index of the last `c` in `s`, or -1 when `s` has none. */
  function LastIndexOf(s: string, c: char): (i: int)
    ensures -1 <= i < |s|
    ensures 0 <= i ==> s[i] == c
    ensures forall k :: i < k < |s| ==> s[k] != c
  {
    if s == [] then -1
    else if s[|s| - 1] == c then |s| - 1
    else LastIndexOf(s[..|s| - 1], c)
  }

  /** `NSString.lastPathComponent`: trailing slashes are ignored, a path made only of
      slashes gives "/", the empty path gives "", otherwise the text after the last slash. */
  function LastPathComponent(p: string): (r: string)
    ensures r == [] <==> p == []
    ensures r != "/" ==> '/' !in r
  {
    var s := StripTrailingSlashes(p);
    if s == [] then (if p == [] then [] else "/")
    else s[LastIndexOf(s, '/') + 1..]
  }

  /** `FileSystemPathHelper.fileName(from:)`: the last component of the URL's path. */
  function FileName(u: Url): string {
    LastPathComponent(u.path)
  }

  /** `path(byAppending: component, to: existingPath)`, i.e. `NSString.appendingPathComponent`:
      slashes around the component and trailing slashes of the base are dropped and exactly
      one separator joins the two; appending nothing leaves the base. */
  function PathByAppending(component: string, existingPath: Path): Path {
    var c := StripTrailingSlashes(StripLeadingSlashes(component));
    var base := StripTrailingSlashes(existingPath);
    if c == [] then (if existingPath != [] && base == [] then "/" else base)
    else if existingPath == [] then c
    else if base == [] then "/" + c
    else base + "/" + c
  }

  /** A name appended to any prefix with a separator is that path's last component. */
  lemma LastComponentOfJoin(prefix: string, name: string)
    requires IsName(name)
    ensures LastPathComponent(prefix + "/" + name) == name
  {
    var s := prefix + "/" + name;
    assert s[|s| - 1] == name[|name| - 1];
    assert name[|name| - 1] in name;
    assert StripTrailingSlashes(s) == s;
    var i := LastIndexOf(s, '/');
    assert s[|prefix|] == '/';
    forall k | |prefix| < k < |s| ensures s[k] != '/' {
      assert s[k] == name[k - |prefix| - 1];
    }
    assert i == |prefix|;
    assert s[i + 1..] == name;
  }

  /** Appending a name: the result's last component is that name, and when the base is a
      real directory path the result is the base, one slash, and the name. */
  lemma AppendedNameIsLastComponent(name: string, existingPath: Path)
    requires IsName(name)
    ensures StripTrailingSlashes(existingPath) != [] ==>
      PathByAppending(name, existingPath) == StripTrailingSlashes(existingPath) + "/" + name
    ensures LastPathComponent(PathByAppending(name, existingPath)) == name
  {
    assert name[0] in name;
    assert name[|name| - 1] in name;
    assert StripLeadingSlashes(name) == name;
    assert StripTrailingSlashes(name) == name;
    var base := StripTrailingSlashes(existingPath);
    if existingPath == [] {
      assert PathByAppending(name, existingPath) == name;
      assert LastIndexOf(name, '/') == -1;
    } else if base == [] {
      assert PathByAppending(name, existingPath) == "" + "/" + name;
      LastComponentOfJoin("", name);
    } else {
      LastComponentOfJoin(base, name);
    }
  }

  /** A directory path without a trailing slash (and not empty). */
  predicate Normalized(d: Path) {
    d != [] && d[|d| - 1] != '/'
  }

  /** Appending a name to a normalized path is plain concatenation with one slash. */
  lemma AppendToNormalized(name: string, d: Path)
    requires IsName(name) && Normalized(d)
    ensures PathByAppending(name, d) == d + "/" + name
  {
    assert StripTrailingSlashes(d) == d;
    AppendedNameIsLastComponent(name, d);
  }

  /** A file name is a proper name unless the path was empty or made only of slashes. */
  lemma FileNameShapes(u: Url)
    ensures IsName(FileName(u)) || FileName(u) == [] || FileName(u) == "/"
  {
  }

  /** Appending the empty name or "/" to a normalized path leaves the path. */
  lemma AppendNothingToNormalized(c: string, d: Path)
    requires c == [] || c == "/"
    requires Normalized(d)
    ensures PathByAppending(c, d) == d
  {
    if c == "/" {
      var l := StripLeadingSlashes(c);
      assert l != c by {
        assert c[0] == '/';
      }
    }
    assert StripTrailingSlashes(StripLeadingSlashes(c)) == [];
    assert StripTrailingSlashes(d) == d;
  }

  /** `fileName(from:)` sees only the last segment: two URLs whose paths end in the same
      segment get the same file name, whatever precedes it. */
  lemma FileNameIgnoresEarlierSegments(u: Url, v: Url, name: string, p: string, q: string)
    requires IsName(name)
    requires u.path == p + "/" + name && v.path == q + "/" + name
    ensures FileName(u) == name && FileName(v) == name
  {
    LastComponentOfJoin(p, name);
    LastComponentOfJoin(q, name);
  }

  /** The two user-domain directories a cache can live under. */
  datatype UserDirectory = Caches | Documents

  /** What the platform's search-path lookup answers for each user directory. */
  datatype SearchPaths = SearchPaths(caches: Path, documents: Path)

  /** `UserDirectory.path`. */
  function RootPath(directory: UserDirectory, paths: SearchPaths): Path {
    match directory
    case Caches => paths.caches
    case Documents => paths.documents
  }

  /** `UserDirectory.pathToSubdirectory(named:)`. */
  function PathToSubdirectory(directory: UserDirectory, paths: SearchPaths, name: string): Path {
    PathByAppending(name, RootPath(directory, paths))
  }

  /** A named subdirectory sits directly inside its root: the root, one slash, the name. */
  lemma SubdirectoryIsChildOfRoot(directory: UserDirectory, paths: SearchPaths, name: string)
    requires IsName(name)
    requires StripTrailingSlashes(RootPath(directory, paths)) != []
    ensures PathToSubdirectory(directory, paths, name)
      == StripTrailingSlashes(RootPath(directory, paths)) + "/" + name
    ensures LastPathComponent(PathToSubdirectory(directory, paths, name)) == name
  {
    AppendedNameIsLastComponent(name, RootPath(directory, paths));
  }
}
