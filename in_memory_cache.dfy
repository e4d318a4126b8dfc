/** InMemoryCache: a table from a URL's absolute string to the stored object. The
    platform table (`NSCache`) may drop entries on its own; that is modelled by `Evict`,
    which the environment may apply at any time. */
module InMemoryCache {
  import opened Wrappers
  import opened Foundation

  /** The contents of `underlyingCache`. */
  type Table<T> = map<string, T>

  /** `key(for:)`: the URL's full absolute string. */
  function Key(u: Url): string {
    AbsoluteString(u)
  }

  /** Two well-formed URLs share a key only when they are the same URL. */
  lemma KeysDoNotAlias(u: Url, v: Url)
    requires ValidUrl(u) && ValidUrl(v) && u != v
    ensures Key(u) != Key(v)
  {
    if Key(u) == Key(v) {
      AbsoluteStringInjective(u, v);
    }
  }

  /** `setObject(_:forKey:)` under the URL's key. */
  function ActuallyStore<T>(t: Table<T>, u: Url, item: T): (r: Table<T>)
    ensures ActuallyFetchItem(r, u) == Some(item)
    ensures forall v :: Key(v) != Key(u) ==> ActuallyFetchItem(r, v) == ActuallyFetchItem(t, v)
  {
    t[Key(u) := item]
  }

  /** `object(forKey:)` under the URL's key. */
  function ActuallyFetchItem<T>(t: Table<T>, u: Url): (r: Option<T>)
    ensures r.Some? <==> Key(u) in t
  {
    if Key(u) in t then Some(t[Key(u)]) else None
  }

  /** `removeObject(forKey:)` under the URL's key. */
  function ActuallyRemoveItem<T>(t: Table<T>, u: Url): (r: Table<T>)
    ensures ActuallyFetchItem(r, u) == None
    ensures forall v :: Key(v) != Key(u) ==> ActuallyFetchItem(r, v) == ActuallyFetchItem(t, v)
  {
    t - {Key(u)}
  }

  /** `removeAllObjects()`. */
  function ClearAll<T>(t: Table<T>): (r: Table<T>)
    ensures forall v :: ActuallyFetchItem(r, v) == None
  {
    map[]
  }

  /** Entries the platform drops from the table on its own. */
  function Evict<T>(t: Table<T>, keys: set<string>): (r: Table<T>)
    ensures forall v :: ActuallyFetchItem(r, v) == (if Key(v) in keys then None else ActuallyFetchItem(t, v))
  {
    t - keys
  }

  /** A second store under the same URL replaces the first object. */
  lemma StoreReplaces<T>(t: Table<T>, u: Url, first: T, second: T)
    ensures ActuallyStore(ActuallyStore(t, u, first), u, second) == ActuallyStore(t, u, second)
  {
  }

  /** What happens to the table over time. */
  datatype Event<T> = Stored(url: Url, item: T) | Removed(url: Url) | Cleared | Purged(keys: set<string>)

  function Apply<T>(t: Table<T>, e: Event<T>): Table<T> {
    match e
    case Stored(u, item) => ActuallyStore(t, u, item)
    case Removed(u) => ActuallyRemoveItem(t, u)
    case Cleared => ClearAll(t)
    case Purged(keys) => Evict(t, keys)
  }

  /** The table after a history of events, oldest first. */
  function Replay<T>(t: Table<T>, events: seq<Event<T>>): Table<T>
    decreases |events|
  {
    if events == [] then t else Apply(Replay(t, events[..|events| - 1]), events[|events| - 1])
  }

  /** The object a key would hold if the platform never dropped anything: the item of the
      last store under the key, unless a later removal or clearing undid it. */
  function Latest<T>(events: seq<Event<T>>, k: string): Option<T>
    decreases |events|
  {
    if events == [] then None
    else
      match events[|events| - 1]
      case Stored(u, item) => if Key(u) == k then Some(item) else Latest(events[..|events| - 1], k)
      case Removed(u) => if Key(u) == k then None else Latest(events[..|events| - 1], k)
      case Cleared => None
      case Purged(_) => Latest(events[..|events| - 1], k)
  }

  /** Whether the platform ever dropped the key. */
  predicate EverPurged<T>(events: seq<Event<T>>, k: string) {
    exists i :: 0 <= i < |events| && events[i].Purged? && k in events[i].keys
  }

  /** Starting from an empty table, a fetch returns the latest object stored under the URL
      or nothing, never any other object; when the platform never dropped the key, it
      returns exactly the latest object. */
  lemma {:induction false} FetchIsLatestOrNothing<T>(events: seq<Event<T>>, u: Url)
    ensures var r := ActuallyFetchItem(Replay(map[], events), u);
      r.None? || r == Latest(events, Key(u))
    ensures !EverPurged(events, Key(u)) ==> ActuallyFetchItem(Replay(map[], events), u) == Latest(events, Key(u))
    decreases |events|
  {
    if events != [] {
      var prefix := events[..|events| - 1];
      FetchIsLatestOrNothing(prefix, u);
      if !EverPurged(events, Key(u)) {
        assert !EverPurged(prefix, Key(u)) by {
          forall i | 0 <= i < |prefix|
            ensures !(prefix[i].Purged? && Key(u) in prefix[i].keys)
          {
            assert prefix[i] == events[i];
          }
        }
      }
      match events[|events| - 1]
      case Stored(v, item) =>
      case Removed(v) =>
      case Cleared =>
      case Purged(keys) =>
        if !EverPurged(events, Key(u)) {
          assert Key(u) !in keys by {
            assert events[|events| - 1].Purged?;
          }
        }
    }
  }
}
