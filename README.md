# CacheMeIfYouCan in Dafny

A model of CacheMeIfYouCan's caching core, with proofs. The library is a small Swift
library that caches values by URL on disk or in memory. Each cache object owns a
serial `localQueue`. Every `store`, `fetchItem` and `removeItem` call (and on the
filesystem cache `store(items:)`, `fetchItems` and the two `fetchOrDownload` calls)
appends a closure to that queue and returns at once. The closures run one at a time.
Each closure calls one of the cache's requirements (`actuallyStore`,
`actuallyFetchItem`, `actuallyRemoveItem`), logs and swallows any error, and fires
the caller's completion on the reply queue the caller chose.

One Dafny module per source file:

- `Foundation` (`foundation.dfy`): `Data` as bytes and a `URL` reduced to scheme, host
  and path, with `absoluteString`.
- `FileSystemPathHelper` (`path_helper.dfy`): `lastPathComponent`,
  `appendingPathComponent`, `fileName(from:)`, `path(byAppending:to:)` and the user
  directories, on slash-separated strings.
- `FileManagerHelper` (`file_manager.dfy`): an abstract disk, meaning a map from path
  to file or directory plus the set of paths the operating system refuses.
  `fileExists`, `directoryExists`, `createDirectory(IfNeeded)`,
  `contentsOfDirectory`, `removeFile` and the removal loop of
  `removeContentsOfDirectory` are written over it, and so are the `Data` write and
  read calls.
- `DataConvertible` (`data_convertible.dfy`): an item codec as an abstract pair of
  functions.
- `DownloadHelper` (`download_helper.dfy`): the guard chain that classifies a finished
  download.
- `LogHelper` (`log_helper.dfy`): the string `log` returns.
- `InMemoryCache` (`in_memory_cache.dfy`): the `NSCache` table keyed by
  `absoluteString`.
- `FileSystemDataCache` (`file_system_data_cache.dfy`): choosing the directory, mapping
  a URL to a file, and the storage requirements.
- `Caching` (`cache.dfy`): the protocol's default implementation.
  - The pure functions `Run`, `Next` and `RunAll` say what one closure, one turn of
    the queue and a full drain do to an abstract world. That world is the backend, the
    queued closures, the completions delivered (with their reply queue and a ticket
    naming the call) and the downloads started.
  - The class `Cache` holds that world in fields. Its `Submit`, `Step` and `Drain`
    methods are proved to follow the functions and to keep a ghost record of every
    call consistent with the world. That record is: every call is owed exactly one
    completion, either still queued or already delivered.

The serial queue gives the ordering guarantees the library relies on:

- read-after-write (`ReadAfterWrite`);
- remove-then-fetch (`RemoveThenFetch`);
- completions delivered in submission order (`CompletionsFollowSubmissionOrder`);
- every completion delivered exactly once (`Cache.Drain`).

The two backends are a datatype `Backend`: `FileSystemBackend` or `InMemoryBackend`.

`[weak self]` is the flag `alive`. Once the cache object is gone, no closure touches
the backend, but every completion still fires.

A `fetchOrDownload` call is a queued fetch. On a miss, the download's response is an
input to the model. A decoded value is stored by a new closure at the tail of the
queue, and that closure's completion delivers the success. So the item is stored
before the success is reported.

The item codec round-trip is never proved. Lemmas that need it state it as a
precondition about the value involved (`StoreRoundTrips`).

## Model

| member | source | states |
|---|---|---|
| Foundation.AbsoluteStringInjective | CacheMeIfYouCan/CacheMeIfYouCan/CacheTypes/InMemoryCache.swift:26-28 | Two well-formed URLs with the same `absoluteString` are the same URL. |
| FileSystemPathHelper.LastPathComponent | CacheMeIfYouCan/CacheMeIfYouCan/Helpers/FileSystemPathHelper.swift:54-56 | `lastPathComponent` is empty exactly for the empty path, and is either "/" or free of slashes. |
| FileSystemPathHelper.LastComponentOfJoin | CacheMeIfYouCan/CacheMeIfYouCan/Helpers/FileSystemPathHelper.swift:54-56 | The last component of `prefix/name` is `name`, for any prefix. |
| FileSystemPathHelper.AppendedNameIsLastComponent | CacheMeIfYouCan/CacheMeIfYouCan/Helpers/FileSystemPathHelper.swift:64-66 | `path(byAppending: name, to: p)` has last component `name`. When `p` is not only slashes, the result is `p` without trailing slashes, one slash, then `name`. |
| FileSystemPathHelper.AppendToNormalized | CacheMeIfYouCan/CacheMeIfYouCan/Helpers/FileSystemPathHelper.swift:64-66 | Appending a name to a path without a trailing slash is plain concatenation with one separator. |
| FileSystemPathHelper.AppendNothingToNormalized | CacheMeIfYouCan/CacheMeIfYouCan/Helpers/FileSystemPathHelper.swift:64-66 | Appending "" or "/" to a path without a trailing slash leaves it unchanged. |
| FileSystemPathHelper.FileNameShapes | CacheMeIfYouCan/CacheMeIfYouCan/Helpers/FileSystemPathHelper.swift:54-56 | `fileName(from:)` is a proper name, the empty string, or "/". |
| FileSystemPathHelper.FileNameIgnoresEarlierSegments | CacheMeIfYouCan/CacheMeIfYouCan/Helpers/FileSystemPathHelper.swift:54-56 | URLs whose paths end in the same segment get the same file name, whatever comes before it. |
| FileSystemPathHelper.SubdirectoryIsChildOfRoot | CacheMeIfYouCan/CacheMeIfYouCan/Helpers/FileSystemPathHelper.swift:45-47 | `pathToSubdirectory(named: n)` is the root path, one slash and `n`, and its last component is `n`. |
| FileManagerHelper.ExistenceIsExclusive | CacheMeIfYouCan/CacheMeIfYouCan/Helpers/FileManagerHelper.swift:23-49 | `fileExists` and `directoryExists` are never both true; an absent path satisfies neither; a present path satisfies one. |
| FileManagerHelper.CreateDirectory | CacheMeIfYouCan/CacheMeIfYouCan/Helpers/FileManagerHelper.swift:65-67 | Succeeds exactly when no file blocks the path or an ancestor and nothing that must be created is refused. On success the directory and all its ancestors exist, and earlier entries are kept. Only the path and its ancestors are added. |
| FileManagerHelper.CreateDirectoryIfNeeded | CacheMeIfYouCan/CacheMeIfYouCan/Helpers/FileManagerHelper.swift:74-80 | A no-op when the directory exists, otherwise `createDirectory`. On success the directory exists. |
| FileManagerHelper.ContentsOfDirectory | CacheMeIfYouCan/CacheMeIfYouCan/Helpers/FileManagerHelper.swift:87-95 | Empty for a missing directory. Fails exactly when listing the directory is refused. Otherwise it lists exactly the non-hidden direct entries. |
| FileManagerHelper.RemoveItem | CacheMeIfYouCan/CacheMeIfYouCan/Helpers/FileManagerHelper.swift:109 | Fails exactly for an absent path or one whose removal is refused. On success the entry and, for a directory, its subtree are gone and nothing else changes. |
| FileManagerHelper.RemoveFile | CacheMeIfYouCan/CacheMeIfYouCan/Helpers/FileManagerHelper.swift:113-119 | A no-op unless a file is there, so an absent path or a directory is left alone. Otherwise exactly that file is removed, or the call fails when the file is refused. No other path changes. |
| FileManagerHelper.ClearedDirectory | CacheMeIfYouCan/CacheMeIfYouCan/Helpers/FileManagerHelper.swift:101-111 | The directory keeps its existence and has no non-hidden entries left. Its hidden entries and everything outside it stay as they were. |
| FileManagerHelper.RemoveNextChild | CacheMeIfYouCan/CacheMeIfYouCan/Helpers/FileManagerHelper.swift:108-110 | Deleting one more listed entry inside the loop removes exactly that entry's subtree; deleting a refused entry fails. |
| FileManagerHelper.RemoveContentsOfDirectory | CacheMeIfYouCan/CacheMeIfYouCan/Helpers/FileManagerHelper.swift:101-111 | A no-op on a missing directory. It throws exactly when the directory exists and either its listing or the removal of one of its listed entries is refused. Without an error the result equals `ClearedDirectory`. After an error, only subtrees of listed entries are missing, and the directory and the refusals are kept. |
| FileManagerHelper.Write | CacheMeIfYouCan/CacheMeIfYouCan/CacheTypes/FileSystemDataCache.swift:61-62 | `Data.write(to:)` succeeds exactly for a path where changes are not refused, that is not a directory, and whose parent is a directory. The result holds exactly the given bytes at that path. |
| FileManagerHelper.Read | CacheMeIfYouCan/CacheMeIfYouCan/CacheTypes/FileSystemDataCache.swift:80 | `Data(contentsOf:)` succeeds exactly for a file whose reading is not refused, and returns its bytes. |
| FileManagerHelper.WriteThenRead | CacheMeIfYouCan/CacheMeIfYouCan/CacheTypes/FileSystemDataCache.swift:56-63 | What was written is read back, or the read is refused when reading that path is refused. Reads of every other path are unchanged. |
| FileManagerHelper.WriteTwice | CacheMeIfYouCan/CacheMeIfYouCan/CacheTypes/FileSystemDataCache.swift:61-62 | A second write to a path leaves the disk as if only the second write had happened. |
| FileManagerHelper.MissingDirectoryHasNoChildren | CacheMeIfYouCan/CacheMeIfYouCan/Helpers/FileManagerHelper.swift:65-67 | On a disk where every entry's ancestors are directories, nothing lies inside a directory that does not exist yet, at any depth, hidden or not. |
| DownloadHelper.Classify | CacheMeIfYouCan/CacheMeIfYouCan/Helpers/DownloadHelper.swift:51-95 | A transport error wins and is forwarded. Then come `invalidResponseType` (not HTTP) and `invalidResponseCode(status)` (status outside 200..<300). With a 2xx status the outcomes are `noDataReturned` exactly for a missing body, `emptyDataReturned` exactly for an empty body, and success exactly for a non-empty body, which is passed through unchanged. |
| DownloadHelper.StatusErrorsIdentifyTheStatus | CacheMeIfYouCan/CacheMeIfYouCan/Helpers/DownloadHelper.swift:66-75 | Two responses that fail on their status get equal classifications exactly when their statuses are equal. |
| LogHelper.NatToDecimal | CacheMeIfYouCan/CacheMeIfYouCan/Helpers/LogHelper.swift:43 | The line number is written as non-empty decimal digits without leading zeros. |
| LogHelper.DecimalRoundTrip | CacheMeIfYouCan/CacheMeIfYouCan/Helpers/LogHelper.swift:43 | The digits written denote the line number they came from. |
| LogHelper.DistinctLinesDistinctDigits | CacheMeIfYouCan/CacheMeIfYouCan/Helpers/LogHelper.swift:43 | Distinct line numbers are written differently. |
| LogHelper.Log | CacheMeIfYouCan/CacheMeIfYouCan/Helpers/LogHelper.swift:40-56 | Returns nothing exactly for `never`. Otherwise the result ends with the message. With `debugOnly` it starts with `CacheMeIfYouCan: `, and with `always` it starts with the file. `AlwaysCarriesTheLine` and `DebugOnlyPrefixesAlways` pin the whole string. |
| LogHelper.DebugOnlyPrefixesAlways | CacheMeIfYouCan/CacheMeIfYouCan/Helpers/LogHelper.swift:43-52 | The `debugOnly` string is `libName + ": "` followed by the `always` string. |
| LogHelper.AlwaysCarriesTheLine | CacheMeIfYouCan/CacheMeIfYouCan/Helpers/LogHelper.swift:43-48 | The `always` string is exactly the file, ` line `, the line number's decimal digits, `: ` and the message, and those digits denote the line number. |
| InMemoryCache.KeysDoNotAlias | CacheMeIfYouCan/CacheMeIfYouCan/CacheTypes/InMemoryCache.swift:26-28 | Distinct well-formed URLs have distinct keys. |
| InMemoryCache.ActuallyStore | CacheMeIfYouCan/CacheMeIfYouCan/CacheTypes/InMemoryCache.swift:39-42 | After `setObject`, a fetch of the URL returns the item. URLs with other keys fetch what they fetched before. |
| InMemoryCache.ActuallyFetchItem | CacheMeIfYouCan/CacheMeIfYouCan/CacheTypes/InMemoryCache.swift:44-47 | Returns an object exactly when the URL's key is in the table. |
| InMemoryCache.ActuallyRemoveItem | CacheMeIfYouCan/CacheMeIfYouCan/CacheTypes/InMemoryCache.swift:34-37 | After `removeObject`, the URL fetches nothing. URLs with other keys are unchanged. |
| InMemoryCache.ClearAll | CacheMeIfYouCan/CacheMeIfYouCan/CacheTypes/InMemoryCache.swift:30-32 | After `removeAllObjects` every URL fetches nothing. |
| InMemoryCache.Evict | CacheMeIfYouCan/CacheMeIfYouCan/CacheTypes/InMemoryCache.swift:16-20 | A dropped key fetches nothing; every other URL is unchanged. |
| InMemoryCache.StoreReplaces | CacheMeIfYouCan/CacheMeIfYouCan/CacheTypes/InMemoryCache.swift:39-42 | A second store under the same URL leaves the table as if only the second had happened. |
| InMemoryCache.FetchIsLatestOrNothing | CacheMeIfYouCan/CacheMeIfYouCan/CacheTypes/InMemoryCache.swift:16-20 | From an empty table, after any history of stores, removals, clearings and evictions, a fetch returns either nothing or the latest object stored under the key. If the key was never evicted, it returns exactly that object. |
| FileSystemDataCache.SubdirectoryName | CacheMeIfYouCan/CacheMeIfYouCan/CacheTypes/FileSystemDataCache.swift:29-36 | The given name when it is present and non-empty, otherwise the class name. |
| FileSystemDataCache.CacheDirectory | CacheMeIfYouCan/CacheMeIfYouCan/CacheTypes/FileSystemDataCache.swift:39-41 | For a proper name under a root without a trailing slash: the root, one slash and the name, with the name as its last component. |
| FileSystemDataCache.Init | CacheMeIfYouCan/CacheMeIfYouCan/CacheTypes/FileSystemDataCache.swift:43-47 | The directory exists afterwards exactly when `createDirectoryIfNeeded` succeeds. A failure leaves the disk unchanged, and an existing directory is left alone. |
| FileSystemDataCache.InitIsIdempotent | CacheMeIfYouCan/CacheMeIfYouCan/CacheTypes/FileSystemDataCache.swift:43-47 | Building a second cache on the disk the first one left changes nothing. |
| FileSystemDataCache.NewDirectoryIsEmpty | CacheMeIfYouCan/CacheMeIfYouCan/CacheTypes/FileSystemDataCache.swift:43-47 | A directory that `init` had to create holds no entry at any depth, hidden or not. |
| FileSystemDataCache.LocalPathIsEntryOfDirectory | CacheMeIfYouCan/CacheMeIfYouCan/CacheTypes/FileSystemDataCache.swift:50-54 | `localURL(for:)` is the directory, one slash and the file name: an entry directly inside the directory, hidden exactly when the name starts with a dot. A URL without a proper file name maps to the directory itself. |
| FileSystemDataCache.FileNamesOfUserUrls | CacheMeIfYouCan/CacheMeIfYouCanTests/FileSystemDataCacheTests.swift:14-16 | `.../user/1` is stored under the name `1` and `.../user/all` under `all`. |
| FileSystemDataCache.StoreData | CacheMeIfYouCan/CacheMeIfYouCan/CacheTypes/FileSystemDataCache.swift:56-72 | Writes nothing when there are no bytes. Otherwise it succeeds exactly when the entry is writable, the bytes are read back when reading is allowed, and no other path changes. |
| FileSystemDataCache.ActuallyStore | CacheMeIfYouCan/CacheMeIfYouCan/CacheTypes/FileSystemDataCache.swift:56-63 | An item that does not encode leaves the store unchanged without an error. Otherwise the store succeeds exactly when the entry is writable. |
| FileSystemDataCache.ActuallyStoreItems | CacheMeIfYouCan/CacheMeIfYouCan/CacheTypes/FileSystemDataCache.swift:65-72 | The same as `ActuallyStore`, with the array codec. |
| FileSystemDataCache.ActuallyFetchItem | CacheMeIfYouCan/CacheMeIfYouCan/CacheTypes/FileSystemDataCache.swift:74-84 | Returns nothing when no file is at the entry. Fails exactly when reading that file is refused. Otherwise it decodes the file's bytes. |
| FileSystemDataCache.ActuallyFetchItems | CacheMeIfYouCan/CacheMeIfYouCan/CacheTypes/FileSystemDataCache.swift:86-93 | Reads without checking that the file exists: succeeds exactly for a file whose reading is allowed, and then decodes it with the array codec. |
| FileSystemDataCache.ActuallyRemoveItem | CacheMeIfYouCan/CacheMeIfYouCan/CacheTypes/FileSystemDataCache.swift:99-102 | A no-op when no file is at the entry. Fails exactly when removing that file is refused. Otherwise that file is gone and every other path reads the same. |
| FileSystemDataCache.Cleared | CacheMeIfYouCan/CacheMeIfYouCan/CacheTypes/FileSystemDataCache.swift:95-97 | The directory keeps its existence and has no non-hidden entries left. |
| FileSystemDataCache.StoreThenFetch | CacheMeIfYouCan/CacheMeIfYouCan/CacheTypes/FileSystemDataCache.swift:56-84 | An item that encodes and decodes back, at an entry that can be written and read, is fetched back after it is stored. |
| FileSystemDataCache.StoreItemsThenFetchItems | CacheMeIfYouCan/CacheMeIfYouCan/CacheTypes/FileSystemDataCache.swift:65-93 | The same for arrays. |
| FileSystemDataCache.StoreReplaces | CacheMeIfYouCan/CacheMeIfYouCan/CacheTypes/FileSystemDataCache.swift:56-63 | A second store under the same URL leaves the store as if only the second had happened. |
| FileSystemDataCache.StoreItemsReplaces | CacheMeIfYouCan/CacheMeIfYouCan/CacheTypes/FileSystemDataCache.swift:65-72 | The same for arrays. |
| FileSystemDataCache.SharedLastSegmentAliases | CacheMeIfYouCan/CacheMeIfYouCan/CacheTypes/FileSystemDataCache.swift:50-54 | URLs whose paths end in the same segment share one entry: each fetches what was stored for the other. |
| FileSystemDataCache.RemoveThenFetch | CacheMeIfYouCan/CacheMeIfYouCan/CacheTypes/FileSystemDataCache.swift:99-102 | After a successful removal the URL fetches nothing. A refused removal leaves the file in place, so if reading is allowed the fetch decodes the old bytes. |
| FileSystemDataCache.FetchDependsOnlyOnEntry | CacheMeIfYouCan/CacheMeIfYouCan/CacheTypes/FileSystemDataCache.swift:74-84 | A fetch depends only on the URL's own entry. |
| FileSystemDataCache.RemoveKeepsOtherEntries | CacheMeIfYouCan/CacheMeIfYouCan/CacheTypes/FileSystemDataCache.swift:99-102 | Removing one URL leaves every URL stored at another entry as it was. |
| FileSystemDataCache.ClearAllEmptiesVisibleKeys | CacheMeIfYouCan/CacheMeIfYouCan/CacheTypes/FileSystemDataCache.swift:95-97 | After clearing, a URL whose file name is not hidden fetches nothing. |
| FileSystemDataCache.ClearAllKeepsHiddenKeys | CacheMeIfYouCan/CacheMeIfYouCan/CacheTypes/FileSystemDataCache.swift:95-97 | After clearing, a URL whose file name starts with a dot fetches what it fetched before. |
| Caching.Stored | CacheMeIfYouCan/CacheMeIfYouCan/CacheTypes/Cache.swift:31 | `actuallyStore` on either backend keeps the same cache, and the in-memory one never fails. |
| Caching.StoredItems | CacheMeIfYouCan/CacheMeIfYouCan/CacheTypes/FileSystemDataCache.swift:65-72 | `actuallyStore(items:)` keeps the same cache. |
| Caching.Fetched | CacheMeIfYouCan/CacheMeIfYouCan/CacheTypes/Cache.swift:37 | On the in-memory backend, `actuallyFetchItem` is the table lookup and never fails. |
| Caching.Removed | CacheMeIfYouCan/CacheMeIfYouCan/CacheTypes/Cache.swift:24 | `actuallyRemoveItem` keeps the same cache, and the in-memory one never fails. |
| Caching.Cleared | CacheMeIfYouCan/CacheMeIfYouCan/CacheTypes/Cache.swift:19 | `clearAll` keeps the same cache. |
| Caching.KeepOnError | CacheMeIfYouCan/CacheMeIfYouCan/CacheTypes/Cache.swift:73-77 | A thrown error leaves the state as it was; otherwise the new state is kept. |
| Caching.FetchOrNothing | CacheMeIfYouCan/CacheMeIfYouCan/CacheTypes/Cache.swift:92-109 | `fetchItem` delivers nothing when the cache is gone or the fetch throws. Otherwise it delivers exactly what the fetch returned. |
| Caching.FetchItemsOrNothing | CacheMeIfYouCan/CacheMeIfYouCan/CacheTypes/FileSystemDataCache.swift:132-149 | The same for `fetchItems`. |
| Caching.Resolve | CacheMeIfYouCan/CacheMeIfYouCan/CacheTypes/FileSystemDataCache.swift:239-250 | A download failure is forwarded unchanged, and undecodable bytes give `didNotConvertDataToExpectedType`. Success comes exactly for downloaded bytes that decode, and carries the decoded value and the URL that was asked for. |
| Caching.Run | CacheMeIfYouCan/CacheMeIfYouCan/CacheTypes/Cache.swift:62-78 | One closure either delivers its completion once, on its own queue with its own ticket, or hands it to exactly one queued store. With the cache gone the backend is untouched. Store and remove apply the requirement and swallow errors, and fetch delivers `FetchOrNothing`. |
| Caching.Next | CacheMeIfYouCan/CacheMeIfYouCan/CacheTypes/Cache.swift:44-49 | One turn of the serial queue: the head leaves, the rest keeps its order, at most one completion is added, and every call's claim is kept. |
| Caching.RunAll | CacheMeIfYouCan/CacheMeIfYouCan/CacheTypes/Cache.swift:44-49 | Running the queue to the end empties it. Exactly the owed completions are delivered, one per call, and earlier deliveries are kept. |
| Caching.CompletionsFollowSubmissionOrder | CacheMeIfYouCan/CacheMeIfYouCan/CacheTypes/Cache.swift:44-49 | When no fetchOrDownload call is queued, or the cache is gone, completions are delivered in exactly the order the calls were submitted. |
| Caching.GoneCacheKeepsBackend | CacheMeIfYouCan/CacheMeIfYouCan/CacheTypes/Cache.swift:69-71 | With the cache gone, running every queued closure leaves the backend unchanged. |
| Caching.StoreThenFetched | CacheMeIfYouCan/CacheMeIfYouCan/CacheTypes/Cache.swift:31-37 | On either backend, a stored item that round-trips at an entry that can be written and read is what the next fetch gets. |
| Caching.StoreItemsThenFetched | CacheMeIfYouCan/CacheMeIfYouCan/CacheTypes/FileSystemDataCache.swift:106-150 | The same for arrays. |
| Caching.RemovedThenFetchedNothing | CacheMeIfYouCan/CacheMeIfYouCan/CacheTypes/Cache.swift:118-138 | After a removal that succeeded, or that found the cache gone, a fetch of the URL gets nothing. A removal that threw (only the filesystem cache can throw) left the entry, and the fetch gets what it got before. |
| Caching.InMemoryNeverThrows | CacheMeIfYouCan/CacheMeIfYouCan/CacheTypes/InMemoryCache.swift:30-47 | On the in-memory backend, store, remove and fetch never throw. |
| Caching.ReadAfterWrite | CacheMeIfYouCan/CacheMeIfYouCanTests/FileSystemDataCacheTests.swift:380-388 | A store followed at once by a fetch of the same URL completes with `Done`, and the fetch then gets the stored item. |
| Caching.ReadAfterWriteItems | CacheMeIfYouCan/CacheMeIfYouCan/CacheTypes/FileSystemDataCache.swift:106-150 | The same for `store(items:)` followed by `fetchItems`. |
| Caching.RemoveThenFetch | CacheMeIfYouCan/CacheMeIfYouCanTests/FileSystemDataCacheTests.swift:390-406 | A removal followed at once by a fetch of the same URL: the removal completes with `Done`. Then the fetch gets nothing, or the old item when the removal threw. |
| Caching.TwoDirectSteps | CacheMeIfYouCan/CacheMeIfYouCan/CacheTypes/Cache.swift:44-49 | Two closures that complete by themselves run in order, each on the backend the previous one left. |
| Caching.FetchOrDownloadHit | CacheMeIfYouCan/CacheMeIfYouCan/CacheTypes/FileSystemDataCache.swift:229-236 | On a hit the cached item is delivered with the URL that was asked for, and no download starts. |
| Caching.FetchOrDownloadMiss | CacheMeIfYouCan/CacheMeIfYouCan/CacheTypes/FileSystemDataCache.swift:239-262 | On a miss a download starts. Its failure is forwarded, and undecodable bytes fail with `didNotConvertDataToExpectedType`. A decoded item is queued for storing with its success attached, or delivered unstored when the cache is gone. |
| Caching.DownloadedItemIsStoredFirst | CacheMeIfYouCan/CacheMeIfYouCan/CacheTypes/FileSystemDataCache.swift:258-261 | A downloaded item is stored before its success is delivered: afterwards a fetch of the URL gets it. |
| Caching.DownloadedItemsAreStoredFirst | CacheMeIfYouCan/CacheMeIfYouCan/CacheTypes/FileSystemDataCache.swift:202-205 | The same for `fetchOrDownloadItems`. |
| Caching.ClearedFetchesNothing | CacheMeIfYouCan/CacheMeIfYouCan/CacheTypes/FileSystemDataCache.swift:95-97 | After a successful `clearAll`, the in-memory cache has nothing for any URL. The filesystem cache has nothing for any URL whose file name is not hidden. |
| Caching.Cache.OnDisk | CacheMeIfYouCan/CacheMeIfYouCan/CacheTypes/FileSystemDataCache.swift:27-48 | A new filesystem cache over the chosen directory, with an empty queue and a consistent state. |
| Caching.Cache.InMemory | CacheMeIfYouCan/CacheMeIfYouCan/CacheTypes/InMemoryCache.swift:22-24 | A new in-memory cache with an empty table and an empty queue. |
| Caching.Cache.Submit | CacheMeIfYouCan/CacheMeIfYouCan/CacheTypes/Cache.swift:62 | `localQueue.async` appends the closure at the tail under a fresh ticket and records the call's reply queue. Nothing else changes. |
| Caching.Cache.Store | CacheMeIfYouCan/CacheMeIfYouCan/CacheTypes/Cache.swift:58-79 | `store` queues, under the next ticket, a store with a `Done` completion on the chosen reply queue (by default the main queue). The backend, the completions delivered and the downloads are unchanged. |
| Caching.Cache.FetchItem | CacheMeIfYouCan/CacheMeIfYouCan/CacheTypes/Cache.swift:89-110 | `fetchItem` queues a fetch on the chosen reply queue under the next ticket. The backend, the completions delivered and the downloads are unchanged. |
| Caching.Cache.RemoveItem | CacheMeIfYouCan/CacheMeIfYouCan/CacheTypes/Cache.swift:118-138 | `removeItem` queues a removal on the chosen reply queue under the next ticket. The backend, the completions delivered and the downloads are unchanged. |
| Caching.Cache.StoreItems | CacheMeIfYouCan/CacheMeIfYouCan/CacheTypes/FileSystemDataCache.swift:106-127 | `store(items:)` queues an array store under the next ticket. The backend, the completions delivered and the downloads are unchanged. |
| Caching.Cache.FetchItems | CacheMeIfYouCan/CacheMeIfYouCan/CacheTypes/FileSystemDataCache.swift:129-150 | `fetchItems` queues an array fetch under the next ticket. The backend, the completions delivered and the downloads are unchanged. |
| Caching.Cache.FetchOrDownloadItem | CacheMeIfYouCan/CacheMeIfYouCan/CacheTypes/FileSystemDataCache.swift:224-229 | `fetchOrDownloadItem` queues its fetch under the next ticket. The backend, the completions delivered and the downloads are unchanged. |
| Caching.Cache.FetchOrDownloadItems | CacheMeIfYouCan/CacheMeIfYouCan/CacheTypes/FileSystemDataCache.swift:168-173 | `fetchOrDownloadItems` queues its fetch under the next ticket. The backend, the completions delivered and the downloads are unchanged. |
| Caching.Cache.ActuallyStore | CacheMeIfYouCan/CacheMeIfYouCan/CacheTypes/Cache.swift:31 | The backend is updated in place, or keeps its state and returns the error. |
| Caching.Cache.ActuallyStoreItems | CacheMeIfYouCan/CacheMeIfYouCan/CacheTypes/FileSystemDataCache.swift:65-72 | The same for arrays. |
| Caching.Cache.ActuallyRemoveItem | CacheMeIfYouCan/CacheMeIfYouCan/CacheTypes/Cache.swift:24 | The same for removal. |
| Caching.Cache.ActuallyFetchItem | CacheMeIfYouCan/CacheMeIfYouCan/CacheTypes/Cache.swift:37 | Returns the backend's fetch result and changes nothing. |
| Caching.Cache.ActuallyFetchItems | CacheMeIfYouCan/CacheMeIfYouCan/CacheTypes/FileSystemDataCache.swift:86-93 | The same for arrays. |
| Caching.Cache.RunHead | CacheMeIfYouCan/CacheMeIfYouCan/CacheTypes/Cache.swift:62-78 | The imperative closure body (defer, weak-self guard, do/catch) has exactly the effect of `Run`. |
| Caching.Cache.Step | CacheMeIfYouCan/CacheMeIfYouCan/CacheTypes/Cache.swift:44-49 | One turn of the queue follows `Next` and keeps the bookkeeping consistent: every call is owed exactly one completion. |
| Caching.Cache.Drain | CacheMeIfYouCan/CacheMeIfYouCan/CacheTypes/Cache.swift:63-67 | Running the queue empty ends in the state `RunAll` gives. Every submitted call then has exactly one completion, on the reply queue it asked for. |
| Caching.Cache.ClearAll | CacheMeIfYouCan/CacheMeIfYouCan/CacheTypes/Cache.swift:19 | On disk, it throws exactly when the listing or a removal is refused. Without an error the backend is `Cleared`. After an error, only subtrees of listed entries are gone, and the directory and the refusals are kept. The in-memory cache never fails, and the queue is untouched. |
| Caching.Cache.Evict | CacheMeIfYouCan/CacheMeIfYouCan/CacheTypes/InMemoryCache.swift:16-20 | `NSCache` dropping entries changes only the table. |
| Caching.Cache.Release | CacheMeIfYouCan/CacheMeIfYouCan/CacheTypes/Cache.swift:69-71 | After the last reference is dropped, queued closures see `self` gone. |

## Left out

- Threads and dispatch: `DispatchQueue`, `async` and the reply queues are modelled as one FIFO of closures per cache object, with each completion tagged by its reply queue. The order in which the reply queues themselves run their completions is not modelled.
- `localQueue` is settable (`CacheTypes/Cache.swift:16`). The model assumes it stays the serial default queue.
- In `fetchOrDownloadItem(s)` the fetch's completion is sent back to `localQueue` as a separate closure, and the download finishes at some later time. The model folds the continuation into the fetch's closure, and appends the store to the queue right away. Closures submitted in between may therefore run before the continuation or the store in the source but not in the model. Whether the cache is still alive when the download completes is taken to be whether it was alive when the fetch ran.
- Networking: `URLSession`, `URLRequest`, download headers and `CancelableTask` are not part of this model. The response (transport error, HTTP status, body) is an input.
- Codecs: JSON coding (`DataConvertibleCodable.swift`), PNG coding (`ImageCache.swift`) and the array codec `[T].toData`/`fromData` are abstract functions supplied with each filesystem cache.
- Platform paths: the search-path lookup behind `UserDirectory.path` is a parameter (`SearchPaths`), and its `fatalError` branch is not modelled.
- URLs keep only scheme, host and path. Ports, user info, queries and fragments are not modelled, and neither is `lastPathComponent` on interior `//` or `.`/`..` segments.
- `URL.lastPathComponent` percent-decodes, so a last segment `a%2Fb` gives the name `a/b`, and `localURL` then points into a nested path whose write fails. The model's file names are the raw path text and never contain a slash, and `localURL` joins strings with `path(byAppending:)` semantics rather than `URL.appendingPathComponent`. URLs with encoded slashes or other percent-escapes in the last segment are therefore not modelled.
- Logging: `print` and `debugPrint` are side effects and are not modelled. `LogSetting.current` is a parameter. The queue closures' calls to `log` are not modelled, since their result is discarded.
- `contentsOfDirectory` lists entries in an unspecified order. The removal loop picks them in any order, and its result does not depend on that order.
- The disk's refusals are fixed per path and per kind: reading (a file or a listing) and changing (creating, writing, removing). A failure that comes and goes between calls is not modelled. A real `removeItem` on a directory may delete part of the subtree before it fails; the model deletes all or nothing per listed entry.
- `NSCache` may drop entries on its own: this is the method `Evict`, which the environment may call at any time.
- The stale duplicate sources `Cache.swift`, `FilesystemDataCache.swift` and `Helpers/FilesystemPathHelper.swift` at the top of the module are not part of this model. They clash with the current declarations and are not built with them. `TestHelper.isTesting` and the test image loader are not part of this model either.
- FileSystemDataCache.ClearAllEmptiesVisibleKeys: holds only for URLs whose file name does not start with '.'. `contentsOfDirectory` skips hidden files, so `clearAll` leaves hidden entries in place (`ClearAllKeepsHiddenKeys`).
- Caching.ClearedFetchesNothing: for a filesystem cache, stated for URLs whose file name is not hidden and for a directory that exists, for the same reason.
- Caching.DownloadedItemIsStoredFirst: stated for a queue holding only the `fetchOrDownloadItem` call. With other calls queued behind it, a later removal or store for the same URL runs before the download's store, and may change what a fetch returns afterwards. Storing before delivering holds in every case, because the delivery is the store's own completion.
- Caching.DownloadedItemsAreStoredFirst: the same restriction, for arrays.
- Caching.CompletionsFollowSubmissionOrder: stated for queues without a `fetchOrDownload` call while the cache is alive. Such a call's success is delivered by the store it queues at the tail, so it completes after calls submitted later.
