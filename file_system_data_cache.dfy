/** FileSystemDataCache: the storage half of the filesystem cache. Every URL is stored in
    one file of the cache's directory, named after the last segment of the URL's path. The
    queued operations and the download orchestration that use these functions live in the
    `Caching` module. */
module FileSystemDataCache {
  import opened Wrappers
  import opened Foundation
  import opened FileSystemPathHelper
  import opened FileManagerHelper
  import opened DataConvertible

  /** A filesystem cache's storage: its `directoryURL` and the disk it writes to. */
  datatype FsStore = FsStore(directory: Path, disk: FileSystem)

  /** The subdirectory `init` chooses: the given name when there is one and it is not
      empty, otherwise the name of the class. */
  function SubdirectoryName(given: Option<string>, className: string): (r: string)
    ensures given.Some? && given.value != [] ==> r == given.value
    ensures given.None? || given.value == [] ==> r == className
    ensures r != [] <==> (given.Some? && given.value != []) || className != []
  {
    if given.Some? && given.value != [] then given.value else className
  }

  /** The directory `init` settles on: the chosen subdirectory of the root. For a proper
      name under a proper root it is the root, one slash and the name. */
  function CacheDirectory(root: UserDirectory, paths: SearchPaths, given: Option<string>, className: string): (d: Path)
    ensures var name := SubdirectoryName(given, className);
      IsName(name) && Normalized(RootPath(root, paths)) ==>
        d == RootPath(root, paths) + "/" + name && Normalized(d) && LastPathComponent(d) == name
  {
    var name := SubdirectoryName(given, className);
    if IsName(name) && Normalized(RootPath(root, paths)) then
      AppendToNormalized(name, RootPath(root, paths));
      AppendedNameIsLastComponent(name, RootPath(root, paths));
      PathToSubdirectory(root, paths, name)
    else
      PathToSubdirectory(root, paths, name)
  }

  /** The rest of `init(rootDirectory:subdirectoryName:)`: creating the directory is
      attempted, and a failure is only logged, leaving the disk as it was. */
  function Init(directory: Path, disk: FileSystem): (s: FsStore)
    ensures s.directory == directory
    ensures DirectoryExists(s.disk, directory) <==> CreateDirectoryIfNeeded(disk, directory).Ok?
    ensures DirectoryExists(disk, directory) ==> s.disk == disk
    ensures s.disk == disk || CreateDirectoryIfNeeded(disk, directory) == Ok(s.disk)
  {
    match CreateDirectoryIfNeeded(disk, directory)
    case Ok(created) => FsStore(directory, created)
    case Err(_) => FsStore(directory, disk)
  }

  /** Building a second cache for the same directory on the disk the first one left
      changes nothing more. */
  lemma InitIsIdempotent(directory: Path, disk: FileSystem)
    ensures Init(directory, Init(directory, disk).disk) == Init(directory, disk)
  {
  }

  /** On a well-formed disk, a directory that `init` had to create holds no entries, at
      any depth and hidden or not. */
  lemma NewDirectoryIsEmpty(directory: Path, disk: FileSystem)
    requires WellFormed(disk)
    requires directory != [] && directory !in disk.nodes
    ensures var s := Init(directory, disk);
      DirectoryExists(s.disk, directory) ==> forall p | p in s.disk.nodes && p != directory :: !IsUnder(p, directory)
    ensures var s := Init(directory, disk);
      DirectoryExists(s.disk, directory) ==> VisibleChildren(s.disk, directory) == {}
  {
    var s := Init(directory, disk);
    MissingDirectoryHasNoChildren(disk, directory);
    if DirectoryExists(s.disk, directory) {
      forall p | p in s.disk.nodes && p != directory
        ensures !IsUnder(p, directory)
      {
        if p !in disk.nodes {
          assert p in Ancestors(directory);
        }
      }
      assert VisibleChildren(s.disk, directory) == {};
    }
  }

  /** `localURL(for:)`: the directory joined with the URL's file name. */
  function LocalPath(s: FsStore, u: Url): Path {
    PathByAppending(FileName(u), s.directory)
  }

  /** A URL whose file name is a proper name is stored in an entry directly inside the
      cache's directory, hidden exactly when the name starts with a dot; any other URL
      (empty path, or only slashes) is mapped to the directory itself. */
  lemma LocalPathIsEntryOfDirectory(s: FsStore, u: Url)
    requires Normalized(s.directory)
    ensures IsName(FileName(u)) ==> LocalPath(s, u) == s.directory + "/" + FileName(u)
    ensures IsName(FileName(u)) ==> IsChildOf(LocalPath(s, u), s.directory)
    ensures IsName(FileName(u)) ==> (IsHiddenChildOf(LocalPath(s, u), s.directory) <==> FileName(u)[0] == '.')
    ensures !IsName(FileName(u)) ==> LocalPath(s, u) == s.directory
  {
    var name := FileName(u);
    FileNameShapes(u);
    if IsName(name) {
      AppendToNormalized(name, s.directory);
      JoinIsChild(s.directory, name);
    } else {
      AppendNothingToNormalized(name, s.directory);
    }
  }

  /** The URLs of the library's own examples: `.../user/1` is stored as `1` and
      `.../user/all` as `all`. */
  lemma FileNamesOfUserUrls()
    ensures FileName(Url("https", "www.url.com", "/user/1")) == "1"
    ensures FileName(Url("https", "www.url.com", "/user/all")) == "all"
  {
    LastComponentOfJoin("/user", "1");
    LastComponentOfJoin("/user", "all");
    assert "/user/1" == "/user" + "/" + "1";
    assert "/user/all" == "/user" + "/" + "all";
  }

  /** Whether `Data.write(to:)` at the URL's entry would succeed. */
  predicate Writable(s: FsStore, u: Url) {
    Write(s.disk, LocalPath(s, u), []).Ok?
  }

  /** Whether reading the URL's entry is allowed. */
  predicate Readable(s: FsStore, u: Url) {
    LocalPath(s, u) !in s.disk.refused.reading
  }

  /** The write both `actuallyStore` variants perform: nothing when there are no bytes to
      write, otherwise the bytes replace whatever the entry held. */
  function StoreData(s: FsStore, u: Url, data: Option<Data>): (r: Result<FsStore, IoError>)
    ensures data.None? ==> r == Ok(s)
    ensures data.Some? ==> (r.Ok? <==> Writable(s, u))
    ensures r.Ok? ==> r.value.directory == s.directory && r.value.disk.refused == s.disk.refused
    ensures r.Ok? && data.Some? && Readable(s, u) ==> Read(r.value.disk, LocalPath(s, u)) == Ok(data.value)
    ensures r.Ok? ==> forall q | q != LocalPath(s, u) :: Read(r.value.disk, q) == Read(s.disk, q)
    ensures r.Ok? ==> forall q | q != LocalPath(s, u) ::
      (q in r.value.disk.nodes <==> q in s.disk.nodes) && (q in s.disk.nodes ==> r.value.disk.nodes[q] == s.disk.nodes[q])
  {
    if data.None? then Ok(s)
    else
      var path := LocalPath(s, u);
      match Write(s.disk, path, data.value)
      case Ok(written) =>
        WriteThenRead(s.disk, path, data.value);
        Ok(s.(disk := written))
      case Err(e) => Err(e)
  }

  /** `actuallyStore(item:for:)`. */
  function ActuallyStore<T>(s: FsStore, codec: Codec<T>, u: Url, item: T): (r: Result<FsStore, IoError>)
    ensures codec.toData(item).None? ==> r == Ok(s)
    ensures codec.toData(item).Some? ==> (r.Ok? <==> Writable(s, u))
  {
    StoreData(s, u, codec.toData(item))
  }

  /** `actuallyStore(items:for:)`, with the array codec. */
  function ActuallyStoreItems<T>(s: FsStore, codecs: Codecs<T>, u: Url, items: seq<T>): (r: Result<FsStore, IoError>)
    ensures codecs.list.toData(items).None? ==> r == Ok(s)
    ensures codecs.list.toData(items).Some? ==> (r.Ok? <==> Writable(s, u))
  {
    StoreData(s, u, codecs.list.toData(items))
  }

  /** `actuallyFetchItem(for:)`: nothing when no file is at the entry; otherwise the file
      is read (which may throw) and decoded (which may give nothing). */
  function ActuallyFetchItem<T>(s: FsStore, codec: Codec<T>, u: Url): (r: Result<Option<T>, IoError>)
    ensures !FileExists(s.disk, LocalPath(s, u)) ==> r == Ok(None)
    ensures r.Err? <==> FileExists(s.disk, LocalPath(s, u)) && LocalPath(s, u) in s.disk.refused.reading
    ensures r.Ok? && FileExists(s.disk, LocalPath(s, u)) ==>
      r.value == codec.fromData(s.disk.nodes[LocalPath(s, u)].contents)
  {
    var path := LocalPath(s, u);
    if !FileExists(s.disk, path) then Ok(None)
    else
      match Read(s.disk, path)
      case Ok(data) => Ok(codec.fromData(data))
      case Err(e) => Err(e)
  }

  /** `actuallyFetchItems(for:)`: the file is read without checking that it exists, so a
      missing entry throws; the bytes are decoded with the array codec. */
  function ActuallyFetchItems<T>(s: FsStore, codecs: Codecs<T>, u: Url): (r: Result<Option<seq<T>>, IoError>)
    ensures r.Ok? <==> FileExists(s.disk, LocalPath(s, u)) && LocalPath(s, u) !in s.disk.refused.reading
    ensures r.Ok? ==> r.value == codecs.list.fromData(s.disk.nodes[LocalPath(s, u)].contents)
  {
    match Read(s.disk, LocalPath(s, u))
    case Ok(data) => Ok(codecs.list.fromData(data))
    case Err(e) => Err(e)
  }

  /** `actuallyRemoveItem(for:)`: the entry's file is deleted; nothing happens when there
      is no file there. */
  function ActuallyRemoveItem(s: FsStore, u: Url): (r: Result<FsStore, IoError>)
    ensures !FileExists(s.disk, LocalPath(s, u)) ==> r == Ok(s)
    ensures r.Err? <==> FileExists(s.disk, LocalPath(s, u)) && LocalPath(s, u) in s.disk.refused.changing
    ensures r.Ok? ==> r.value.directory == s.directory && !FileExists(r.value.disk, LocalPath(s, u))
    ensures r.Ok? ==> forall q | q != LocalPath(s, u) :: Read(r.value.disk, q) == Read(s.disk, q)
  {
    match RemoveFile(s.disk, LocalPath(s, u))
    case Ok(disk) => Ok(s.(disk := disk))
    case Err(e) => Err(e)
  }

  /** What `clearAll()` leaves when `removeContentsOfDirectory` succeeds. */
  function Cleared(s: FsStore): (r: FsStore)
    ensures r.directory == s.directory
    ensures DirectoryExists(r.disk, r.directory) <==> DirectoryExists(s.disk, s.directory)
    ensures DirectoryExists(s.disk, s.directory) ==> VisibleChildren(r.disk, r.directory) == {}
  {
    s.(disk := ClearedDirectory(s.disk, s.directory))
  }

  /** Read-after-write on the disk: an item that encodes and decodes back, at an entry
      that can be written and read, is fetched back after it is stored. */
  lemma StoreThenFetch<T>(s: FsStore, codec: Codec<T>, u: Url, item: T)
    requires codec.toData(item).Some? && codec.fromData(codec.toData(item).value) == Some(item)
    requires Writable(s, u) && Readable(s, u)
    ensures ActuallyStore(s, codec, u, item).Ok?
    ensures ActuallyFetchItem(ActuallyStore(s, codec, u, item).value, codec, u) == Ok(Some(item))
  {
  }

  /** The same for arrays of items. */
  lemma StoreItemsThenFetchItems<T>(s: FsStore, codecs: Codecs<T>, u: Url, items: seq<T>)
    requires codecs.list.toData(items).Some? && codecs.list.fromData(codecs.list.toData(items).value) == Some(items)
    requires Writable(s, u) && Readable(s, u)
    ensures ActuallyStoreItems(s, codecs, u, items).Ok?
    ensures ActuallyFetchItems(ActuallyStoreItems(s, codecs, u, items).value, codecs, u) == Ok(Some(items))
  {
  }

  /** A second store under the same URL fully replaces the first: the disk is as if only
      the second had been stored. */
  lemma StoreReplaces<T>(s: FsStore, codec: Codec<T>, u: Url, first: T, second: T)
    requires ActuallyStore(s, codec, u, first).Ok?
    requires codec.toData(second).Some?
    ensures ActuallyStore(ActuallyStore(s, codec, u, first).value, codec, u, second)
      == ActuallyStore(s, codec, u, second)
  {
    if codec.toData(first).Some? {
      WriteTwice(s.disk, LocalPath(s, u), codec.toData(first).value, codec.toData(second).value);
    }
  }

  /** The same for arrays of items. */
  lemma StoreItemsReplaces<T>(s: FsStore, codecs: Codecs<T>, u: Url, first: seq<T>, second: seq<T>)
    requires ActuallyStoreItems(s, codecs, u, first).Ok?
    requires codecs.list.toData(second).Some?
    ensures ActuallyStoreItems(ActuallyStoreItems(s, codecs, u, first).value, codecs, u, second)
      == ActuallyStoreItems(s, codecs, u, second)
  {
    if codecs.list.toData(first).Some? {
      WriteTwice(s.disk, LocalPath(s, u), codecs.list.toData(first).value, codecs.list.toData(second).value);
    }
  }


  /** Two URLs whose paths end in the same segment share one entry: whatever is stored
      for one is what the other fetches. */
  lemma SharedLastSegmentAliases<T>(s: FsStore, codec: Codec<T>, u: Url, v: Url, name: string, p: string, q: string, item: T)
    requires IsName(name)
    requires u.path == p + "/" + name && v.path == q + "/" + name
    requires ActuallyStore(s, codec, u, item).Ok?
    ensures LocalPath(s, u) == LocalPath(s, v)
    ensures ActuallyFetchItem(ActuallyStore(s, codec, u, item).value, codec, v)
      == ActuallyFetchItem(ActuallyStore(s, codec, u, item).value, codec, u)
  {
    FileNameIgnoresEarlierSegments(u, v, name, p, q);
  }

  /** Fetching after a successful removal gives nothing. A refused removal leaves the file
      in place, so unless reading it is refused as well, the fetch still decodes the old
      bytes. */
  lemma RemoveThenFetch<T>(s: FsStore, codec: Codec<T>, u: Url)
    ensures ActuallyRemoveItem(s, u).Ok? ==> ActuallyFetchItem(ActuallyRemoveItem(s, u).value, codec, u) == Ok(None)
    ensures ActuallyRemoveItem(s, u).Err? ==> FileExists(s.disk, LocalPath(s, u))
    ensures ActuallyRemoveItem(s, u).Err? && LocalPath(s, u) !in s.disk.refused.reading ==>
      ActuallyFetchItem(s, codec, u) == Ok(codec.fromData(s.disk.nodes[LocalPath(s, u)].contents))
  {
  }

  /** A fetch looks at one entry only: two stores for the same directory whose disks agree
      on the URL's entry fetch the same for it. */
  lemma FetchDependsOnlyOnEntry<T>(s: FsStore, t: FsStore, codec: Codec<T>, u: Url)
    requires s.directory == t.directory
    requires SameEntry(s.disk, t.disk, LocalPath(s, u))
    ensures ActuallyFetchItem(s, codec, u) == ActuallyFetchItem(t, codec, u)
  {
    assert LocalPath(s, u) == LocalPath(t, u);
  }

  /** Removing one URL's entry leaves every URL stored elsewhere as it was. */
  lemma RemoveKeepsOtherEntries<T>(s: FsStore, codec: Codec<T>, u: Url, v: Url)
    requires LocalPath(s, u) != LocalPath(s, v)
    requires ActuallyRemoveItem(s, u).Ok?
    ensures ActuallyFetchItem(ActuallyRemoveItem(s, u).value, codec, v) == ActuallyFetchItem(s, codec, v)
  {
    var r := ActuallyRemoveItem(s, u).value;
    assert SameEntry(r.disk, s.disk, LocalPath(s, v));
    FetchDependsOnlyOnEntry(r, s, codec, v);
  }

  /** After the directory is cleared, every URL whose file name is not hidden fetches
      nothing. */
  lemma ClearAllEmptiesVisibleKeys<T>(s: FsStore, codec: Codec<T>, u: Url)
    requires Normalized(s.directory) && DirectoryExists(s.disk, s.directory)
    requires FileName(u) == [] || FileName(u)[0] != '.'
    ensures ActuallyFetchItem(Cleared(s), codec, u) == Ok(None)
  {
    var r := Cleared(s);
    LocalPathIsEntryOfDirectory(r, u);
    if IsName(FileName(u)) {
      assert LocalPath(r, u) !in VisibleChildren(r.disk, r.directory);
    }
  }

  /** Clearing spares entries whose name starts with a dot: a URL with a hidden file name
      fetches the same before and after. */
  lemma ClearAllKeepsHiddenKeys<T>(s: FsStore, codec: Codec<T>, u: Url)
    requires Normalized(s.directory)
    requires IsName(FileName(u)) && FileName(u)[0] == '.'
    ensures ActuallyFetchItem(Cleared(s), codec, u) == ActuallyFetchItem(s, codec, u)
  {
    var r := Cleared(s);
    LocalPathIsEntryOfDirectory(s, u);
    assert SameEntry(r.disk, s.disk, LocalPath(s, u));
    FetchDependsOnlyOnEntry(r, s, codec, u);
  }
}
