/** Caching: the `Cache` protocol's default implementation. Every `store`, `fetchItem`
    and `removeItem` (and, for filesystem caches, `store(items:)`, `fetchItems` and the
    two `fetchOrDownload` calls) is a task appended to the cache's serial `localQueue`;
    tasks run one at a time, head first. Whatever happens inside a task, its completion
    is delivered exactly once, tagged with the reply queue the caller chose.

    The pure part (`Run`, `Next`, `RunAll`) says what one task, one step and a full drain
    do to an abstract world; the class `Cache` holds that world in fields and its `Step`
    and `Drain` methods are proved to follow it. */
module Caching {
  import opened Wrappers
  import opened Foundation
  import opened FileSystemPathHelper
  import opened FileManagerHelper
  import opened DataConvertible
  import opened DownloadHelper
  import InMemoryCache
  import FileSystemDataCache

  /** The queue a completion is delivered on: the main queue (the default) or another
      queue the caller names. */
  datatype Reply = Main | Queue(id: nat)

  /** The two cache classes of the library, with the state their operations act on. */
  datatype Backend<!T> =
    | FileSystemBackend(store: FileSystemDataCache.FsStore, codecs: Codecs<T>)
    | InMemoryBackend(table: InMemoryCache.Table<T>)

  /** Why a `fetchOrDownload` call failed. */
  datatype FetchError = Loading(loadError: LoadError) | Conversion(conversionError: DataConvertibleError)

  /** What a `fetchOrDownload` call hands its callbacks: the value with the URL it was
      asked for, or the error. */
  datatype Outcome<X> = Succeeded(value: X, url: Url) | Failed(error: FetchError)

  /** The arguments a completion closure is called with. */
  datatype Payload<T> =
    | Done
    | Item(item: Option<T>)
    | Items(items: Option<seq<T>>)
    | ItemOutcome(outcome: Outcome<T>)
    | ItemsOutcome(outcomes: Outcome<seq<T>>)

  /** One closure on `localQueue`. A store carries the payload its completion will be
      called with (`Done` for a plain store). A `fetchOrDownload` call carries the
      response its download would get. */
  datatype Op<T> =
    | StoreItem(url: Url, item: T, completion: Payload<T>)
    | StoreItems(url: Url, items: seq<T>, completion: Payload<T>)
    | FetchItem(url: Url)
    | FetchItems(url: Url)
    | RemoveItem(url: Url)
    | FetchOrDownloadItem(url: Url, response: Response)
    | FetchOrDownloadItems(url: Url, response: Response)

  /** A queued operation, the reply queue of its completion and the ticket that names the
      call it came from. */
  datatype Task<T> = Task(op: Op<T>, reply: Reply, ticket: nat)

  /** One completion call: on which queue, for which call, with what. */
  datatype Delivery<T> = Delivery(reply: Reply, ticket: nat, payload: Payload<T>)

  /** The promise a call makes: one completion for this ticket on this queue. */
  datatype Claim = Claim(ticket: nat, reply: Reply)

  /** Array storage and downloads exist only on filesystem caches. */
  predicate Supports<T>(b: Backend<T>, op: Op<T>) {
    op.StoreItem? || op.FetchItem? || op.RemoveItem? || b.FileSystemBackend?
  }

  predicate AllSupported<T>(b: Backend<T>, tasks: seq<Task<T>>) {
    forall i :: 0 <= i < |tasks| ==> Supports(b, tasks[i].op)
  }

  /** Two states of the same cache: the same kind, and for a filesystem cache the same
      directory and codecs. */
  ghost predicate SameCache<T>(a: Backend<T>, b: Backend<T>) {
    match a
    case FileSystemBackend(s, codecs) => b.FileSystemBackend? && b.codecs == codecs && b.store.directory == s.directory
    case InMemoryBackend(_) => b.InMemoryBackend?
  }

  // ---------------------------------------------------------------------------------
  // The protocol's requirements, dispatched to the two backends.

  /** `actuallyStore(item:for:)`. */
  function Stored<T>(b: Backend<T>, u: Url, item: T): (r: Result<Backend<T>, IoError>)
    ensures r.Ok? ==> SameCache(b, r.value)
    ensures b.InMemoryBackend? ==> r.Ok?
  {
    match b
    case FileSystemBackend(s, codecs) =>
      (match FileSystemDataCache.ActuallyStore(s, codecs.item, u, item)
       case Ok(s') => Ok(FileSystemBackend(s', codecs))
       case Err(e) => Err(e))
    case InMemoryBackend(t) => Ok(InMemoryBackend(InMemoryCache.ActuallyStore(t, u, item)))
  }

  /** `actuallyStore(items:for:)`. */
  function StoredItems<T>(b: Backend<T>, u: Url, items: seq<T>): (r: Result<Backend<T>, IoError>)
    requires b.FileSystemBackend?
    ensures r.Ok? ==> SameCache(b, r.value)
  {
    match FileSystemDataCache.ActuallyStoreItems(b.store, b.codecs, u, items)
    case Ok(s') => Ok(b.(store := s'))
    case Err(e) => Err(e)
  }

  /** `actuallyFetchItem(for:)`. */
  function Fetched<T>(b: Backend<T>, u: Url): (r: Result<Option<T>, IoError>)
    ensures b.InMemoryBackend? ==> r == Ok(InMemoryCache.ActuallyFetchItem(b.table, u))
  {
    match b
    case FileSystemBackend(s, codecs) => FileSystemDataCache.ActuallyFetchItem(s, codecs.item, u)
    case InMemoryBackend(t) => Ok(InMemoryCache.ActuallyFetchItem(t, u))
  }

  /** `actuallyFetchItems(for:)`. */
  function FetchedItems<T>(b: Backend<T>, u: Url): Result<Option<seq<T>>, IoError>
    requires b.FileSystemBackend?
  {
    FileSystemDataCache.ActuallyFetchItems(b.store, b.codecs, u)
  }

  /** `actuallyRemoveItem(for:)`. */
  function Removed<T>(b: Backend<T>, u: Url): (r: Result<Backend<T>, IoError>)
    ensures r.Ok? ==> SameCache(b, r.value)
    ensures b.InMemoryBackend? ==> r.Ok?
  {
    match b
    case FileSystemBackend(s, codecs) =>
      (match FileSystemDataCache.ActuallyRemoveItem(s, u)
       case Ok(s') => Ok(FileSystemBackend(s', codecs))
       case Err(e) => Err(e))
    case InMemoryBackend(t) => Ok(InMemoryBackend(InMemoryCache.ActuallyRemoveItem(t, u)))
  }

  /** What `clearAll()` leaves when it does not throw. */
  function Cleared<T>(b: Backend<T>): (r: Backend<T>)
    ensures SameCache(b, r)
  {
    match b
    case FileSystemBackend(s, codecs) => FileSystemBackend(FileSystemDataCache.Cleared(s), codecs)
    case InMemoryBackend(t) => InMemoryBackend(InMemoryCache.ClearAll(t))
  }

  // ---------------------------------------------------------------------------------
  // One task.

  /** The `do`/`catch` around a state-changing requirement: a thrown error is logged and
      the state stays as it was. */
  function KeepOnError<T>(b: Backend<T>, r: Result<Backend<T>, IoError>): (k: Backend<T>)
    ensures r.Ok? ==> k == r.value
    ensures r.Err? ==> k == b
  {
    if r.Ok? then r.value else b
  }

  /** The value `fetchItem` hands its completion: the fetched item, or nothing when the
      cache is gone or the fetch threw. */
  function FetchOrNothing<T>(b: Backend<T>, u: Url, alive: bool): (item: Option<T>)
    ensures !alive ==> item.None?
    ensures Fetched(b, u).Err? ==> item.None?
    ensures item.Some? ==> Fetched(b, u) == Ok(item)
    ensures alive && Fetched(b, u).Ok? ==> item == Fetched(b, u).value
  {
    if alive && Fetched(b, u).Ok? then Fetched(b, u).value else None
  }

  /** The value `fetchItems` hands its completion, on the same terms. */
  function FetchItemsOrNothing<T>(b: Backend<T>, u: Url, alive: bool): (items: Option<seq<T>>)
    requires b.FileSystemBackend?
    ensures !alive ==> items.None?
    ensures FetchedItems(b, u).Err? ==> items.None?
    ensures items.Some? ==> FetchedItems(b, u) == Ok(items)
    ensures alive && FetchedItems(b, u).Ok? ==> items == FetchedItems(b, u).value
  {
    if alive && FetchedItems(b, u).Ok? then FetchedItems(b, u).value else None
  }

  /** What a download for a cache miss ends in: `loadData`'s failure forwarded, bytes that
      do not decode reported as `didNotConvertDataToExpectedType`, or the decoded value
      together with the URL that was asked for. */
  function Resolve<X>(u: Url, response: Response, decode: Data -> Option<X>): (r: Outcome<X>)
    ensures Classify(response).Failure? ==> r == Failed(Loading(Classify(response).error))
    ensures Classify(response).Success? && decode(Classify(response).data).None? ==>
      r == Failed(Conversion(DidNotConvertDataToExpectedType))
    ensures r.Succeeded? <==> Classify(response).Success? && decode(Classify(response).data).Some?
    ensures r.Succeeded? ==> r.url == u && Some(r.value) == decode(response.body.value)
  {
    match Classify(response)
    case Failure(e) => Failed(Loading(e))
    case Success(data) =>
      match decode(data)
      case None => Failed(Conversion(DidNotConvertDataToExpectedType))
      case Some(x) => Succeeded(x, u)
  }

  /** What running one task does: the new backend state, the completion delivered now (if
      any), the store queued to deliver it later (if any) and the download started (if
      any). */
  datatype Effect<!T> = Effect(backend: Backend<T>, delivery: Option<Delivery<T>>, spawned: Option<Task<T>>,
                               download: Option<Url>)

  /** The completion of `task`, called with `p`. */
  function Deliver<T>(task: Task<T>, p: Payload<T>): Option<Delivery<T>> {
    Some(Delivery(task.reply, task.ticket, p))
  }

  /** One closure run on `localQueue`. `alive` says whether the cache object still exists
      (`[weak self]`): if not, the requirement is not called, but the deferred completion
      still fires. For a `fetchOrDownload` call the closure's continuation is folded in:
      on a hit the value is delivered; on a miss the download is started and resolved, and
      a decoded value is stored by a new task at the tail of the queue whose completion
      delivers it; if the cache is gone, it is delivered without being stored. */
  function Run<T>(b: Backend<T>, task: Task<T>, alive: bool): (e: Effect<T>)
    requires Supports(b, task.op)
    ensures e.delivery.Some? != e.spawned.Some?
    ensures e.delivery.Some? ==> e.delivery.value.reply == task.reply && e.delivery.value.ticket == task.ticket
    ensures e.spawned.Some? ==> e.spawned.value.reply == task.reply && e.spawned.value.ticket == task.ticket
    ensures e.spawned.Some? ==> alive && Supports(b, e.spawned.value.op) && e.spawned.value.op.url == task.op.url
    ensures e.spawned.Some? ==> e.spawned.value.op.StoreItem? || e.spawned.value.op.StoreItems?
    ensures e.spawned.Some? || e.download.Some? ==> task.op.FetchOrDownloadItem? || task.op.FetchOrDownloadItems?
    ensures !alive ==> e.backend == b
    ensures SameCache(b, e.backend)
    ensures task.op.StoreItem? ==>
      e.backend == (if alive then KeepOnError(b, Stored(b, task.op.url, task.op.item)) else b) &&
      e.delivery.value.payload == task.op.completion
    ensures task.op.StoreItems? ==>
      e.backend == (if alive then KeepOnError(b, StoredItems(b, task.op.url, task.op.items)) else b) &&
      e.delivery.value.payload == task.op.completion
    ensures task.op.RemoveItem? ==>
      e.backend == (if alive then KeepOnError(b, Removed(b, task.op.url)) else b) && e.delivery.value.payload == Done
    ensures task.op.FetchItem? ==> e.backend == b && e.delivery.value.payload == Item(FetchOrNothing(b, task.op.url, alive))
    ensures task.op.FetchItems? ==>
      e.backend == b && e.delivery.value.payload == Items(FetchItemsOrNothing(b, task.op.url, alive))
    ensures task.op.FetchOrDownloadItem? || task.op.FetchOrDownloadItems? ==> e.backend == b
  {
    match task.op
    case StoreItem(u, item, completion) =>
      Effect(if alive then KeepOnError(b, Stored(b, u, item)) else b, Deliver(task, completion), None, None)
    case StoreItems(u, items, completion) =>
      Effect(if alive then KeepOnError(b, StoredItems(b, u, items)) else b, Deliver(task, completion), None, None)
    case FetchItem(u) =>
      Effect(b, Deliver(task, Item(FetchOrNothing(b, u, alive))), None, None)
    case FetchItems(u) =>
      Effect(b, Deliver(task, Items(FetchItemsOrNothing(b, u, alive))), None, None)
    case RemoveItem(u) =>
      Effect(if alive then KeepOnError(b, Removed(b, u)) else b, Deliver(task, Done), None, None)
    case FetchOrDownloadItem(u, response) =>
      var cached := FetchOrNothing(b, u, alive);
      if cached.Some? then Effect(b, Deliver(task, ItemOutcome(Succeeded(cached.value, u))), None, None)
      else
        var outcome := Resolve(u, response, b.codecs.item.fromData);
        if outcome.Succeeded? && alive then
          Effect(b, None, Some(Task(StoreItem(u, outcome.value, ItemOutcome(outcome)), task.reply, task.ticket)), Some(u))
        else Effect(b, Deliver(task, ItemOutcome(outcome)), None, Some(u))
    case FetchOrDownloadItems(u, response) =>
      var cached := FetchItemsOrNothing(b, u, alive);
      if cached.Some? then Effect(b, Deliver(task, ItemsOutcome(Succeeded(cached.value, u))), None, None)
      else
        var outcome := Resolve(u, response, b.codecs.list.fromData);
        if outcome.Succeeded? && alive then
          Effect(b, None, Some(Task(StoreItems(u, outcome.value, ItemsOutcome(outcome)), task.reply, task.ticket)), Some(u))
        else Effect(b, Deliver(task, ItemsOutcome(outcome)), None, Some(u))
  }

  // ---------------------------------------------------------------------------------
  // The queue.

  /** The abstract state of one cache object and its callers: the backend, the closures
      waiting on `localQueue`, the completions delivered so far (in delivery order) and
      the downloads started so far. */
  datatype World<!T> = World(backend: Backend<T>, pending: seq<Task<T>>, delivered: seq<Delivery<T>>,
                             downloads: seq<Url>)

  function OptionSeq<X>(o: Option<X>): seq<X> {
    if o.Some? then [o.value] else []
  }

  /** Tasks that end in their own completion: everything but the two `fetchOrDownload`
      calls, which may hand their completion on to a store. */
  predicate Direct<T>(op: Op<T>) {
    !op.FetchOrDownloadItem? && !op.FetchOrDownloadItems?
  }

  function OpWeight<T>(op: Op<T>): nat {
    if Direct(op) then 1 else 2
  }

  /** A bound on the closures still to run: a `fetchOrDownload` task counts twice, since
      it may queue one store. */
  function Weight<T>(tasks: seq<Task<T>>): nat {
    if tasks == [] then 0 else OpWeight(tasks[0].op) + Weight(tasks[1..])
  }

  lemma {:induction false} WeightOfConcat<T>(a: seq<Task<T>>, b: seq<Task<T>>)
    ensures Weight(a + b) == Weight(a) + Weight(b)
    decreases |a|
  {
    if a == [] {
      assert a + b == b;
    } else {
      assert (a + b)[0] == a[0];
      assert (a + b)[1..] == a[1..] + b;
      WeightOfConcat(a[1..], b);
    }
  }

  /** The claims of queued tasks, in queue order. */
  function TaskClaims<T>(tasks: seq<Task<T>>): (cs: seq<Claim>)
    ensures |cs| == |tasks|
  {
    if tasks == [] then [] else [Claim(tasks[0].ticket, tasks[0].reply)] + TaskClaims(tasks[1..])
  }

  /** The claims of delivered completions, in delivery order. */
  function DeliveryClaims<T>(ds: seq<Delivery<T>>): (cs: seq<Claim>)
    ensures |cs| == |ds|
  {
    if ds == [] then [] else DeliveryClaims(ds[..|ds| - 1]) + [Claim(ds[|ds| - 1].ticket, ds[|ds| - 1].reply)]
  }

  lemma {:induction false} TaskClaimsOfConcat<T>(a: seq<Task<T>>, b: seq<Task<T>>)
    ensures TaskClaims(a + b) == TaskClaims(a) + TaskClaims(b)
    decreases |a|
  {
    if a == [] {
      assert a + b == b;
    } else {
      assert (a + b)[0] == a[0];
      assert (a + b)[1..] == a[1..] + b;
      TaskClaimsOfConcat(a[1..], b);
    }
  }

  lemma {:induction false} DeliveryClaimsOfConcat<T>(a: seq<Delivery<T>>, b: seq<Delivery<T>>)
    ensures DeliveryClaims(a + b) == DeliveryClaims(a) + DeliveryClaims(b)
    decreases |b|
  {
    if b == [] {
      assert a + b == a;
    } else {
      assert (a + b)[..|a + b| - 1] == a + b[..|b| - 1];
      assert (a + b)[|a + b| - 1] == b[|b| - 1];
      DeliveryClaimsOfConcat(a, b[..|b| - 1]);
    }
  }

  /** The completions a world still owes or has delivered, one claim per completion. */
  function Claims<T>(w: World<T>): multiset<Claim> {
    multiset(TaskClaims(w.pending)) + multiset(DeliveryClaims(w.delivered))
  }

  /** The world after the head task has had effect `e`. */
  function Advance<T>(w: World<T>, e: Effect<T>): World<T>
    requires w.pending != []
  {
    World(e.backend, w.pending[1..] + OptionSeq(e.spawned), w.delivered + OptionSeq(e.delivery),
          w.downloads + OptionSeq(e.download))
  }

  /** One turn of `localQueue`: the task at the head runs; its completion is delivered or
      its store is appended at the tail; the rest of the queue stays as it was, in order.
      Every completion owed before is still owed or delivered, on the same queue. */
  function Next<T>(w: World<T>, alive: bool): (v: World<T>)
    requires w.pending != [] && AllSupported(w.backend, w.pending)
    ensures AllSupported(v.backend, v.pending) && SameCache(w.backend, v.backend)
    ensures Weight(v.pending) < Weight(w.pending)
    ensures |w.pending| - 1 <= |v.pending| <= |w.pending| && v.pending[..|w.pending| - 1] == w.pending[1..]
    ensures w.delivered <= v.delivered && |v.delivered| <= |w.delivered| + 1
    ensures w.downloads <= v.downloads
    ensures Claims(v) == Claims(w)
  {
    var e := Run(w.backend, w.pending[0], alive);
    AdvanceFacts(w, e);
    Advance(w, e)
  }

  /** What one turn does to the queue, whatever the head task's effect, as long as the
      effect either delivers the task's completion or hands it on to one store. */
  lemma AdvanceFacts<T>(w: World<T>, e: Effect<T>)
    requires w.pending != [] && AllSupported(w.backend, w.pending)
    requires SameCache(w.backend, e.backend)
    requires e.delivery.Some? != e.spawned.Some?
    requires e.delivery.Some? ==> e.delivery.value.reply == w.pending[0].reply && e.delivery.value.ticket == w.pending[0].ticket
    requires e.spawned.Some? ==>
      e.spawned.value.reply == w.pending[0].reply && e.spawned.value.ticket == w.pending[0].ticket &&
      Supports(w.backend, e.spawned.value.op) && Direct(e.spawned.value.op) && !Direct(w.pending[0].op)
    ensures var v := Advance(w, e);
      AllSupported(v.backend, v.pending) && SameCache(w.backend, v.backend) &&
      Weight(v.pending) < Weight(w.pending) &&
      |w.pending| - 1 <= |v.pending| <= |w.pending| && v.pending[..|w.pending| - 1] == w.pending[1..] &&
      w.delivered <= v.delivered && |v.delivered| <= |w.delivered| + 1 &&
      w.downloads <= v.downloads &&
      Claims(v) == Claims(w)
  {
    var v := Advance(w, e);
    SupportedAfterStep(w.backend, e.backend, w.pending, e.spawned);
    WeightOfConcat(w.pending[1..], OptionSeq(e.spawned));
    ClaimsMove(w.pending, w.delivered, e.spawned, e.delivery);
    assert v.pending[..|w.pending| - 1] == w.pending[1..];
  }

  lemma SupportedAfterStep<T>(b: Backend<T>, b': Backend<T>, tasks: seq<Task<T>>, spawned: Option<Task<T>>)
    requires tasks != [] && AllSupported(b, tasks)
    requires SameCache(b, b')
    requires spawned.Some? ==> Supports(b, spawned.value.op)
    ensures AllSupported(b', tasks[1..] + OptionSeq(spawned))
  {
    var rest := tasks[1..] + OptionSeq(spawned);
    forall i | 0 <= i < |rest| ensures Supports(b', rest[i].op) {
      if i < |tasks| - 1 {
        assert rest[i] == tasks[i + 1];
      }
    }
  }

  /** Taking the head task off the queue and either delivering its completion or queueing
      a task with the same ticket and reply moves its claim and loses none. */
  lemma ClaimsMove<T>(tasks: seq<Task<T>>, delivered: seq<Delivery<T>>, spawned: Option<Task<T>>,
                      delivery: Option<Delivery<T>>)
    requires tasks != [] && spawned.Some? != delivery.Some?
    requires spawned.Some? ==> spawned.value.ticket == tasks[0].ticket && spawned.value.reply == tasks[0].reply
    requires delivery.Some? ==> delivery.value.ticket == tasks[0].ticket && delivery.value.reply == tasks[0].reply
    ensures multiset(TaskClaims(tasks[1..] + OptionSeq(spawned))) + multiset(DeliveryClaims(delivered + OptionSeq(delivery)))
      == multiset(TaskClaims(tasks)) + multiset(DeliveryClaims(delivered))
  {
    var c := Claim(tasks[0].ticket, tasks[0].reply);
    TaskClaimsOfConcat(tasks[1..], OptionSeq(spawned));
    DeliveryClaimsOfConcat(delivered, OptionSeq(delivery));
    if spawned.Some? {
      assert TaskClaims(OptionSeq(spawned)) == [c];
      assert DeliveryClaims(OptionSeq(delivery)) == [];
    } else {
      assert TaskClaims(OptionSeq(spawned)) == [];
      assert DeliveryClaims(OptionSeq(delivery)) == [c];
    }
  }

  /** `localQueue` run until it is empty. Afterwards every completion that was owed has
      been delivered, exactly once, on the queue it was promised on. */
  function RunAll<T>(w: World<T>, alive: bool): (v: World<T>)
    requires AllSupported(w.backend, w.pending)
    ensures v.pending == []
    ensures multiset(DeliveryClaims(v.delivered)) == Claims(w)
    ensures w.delivered <= v.delivered && w.downloads <= v.downloads
    ensures SameCache(w.backend, v.backend)
    decreases Weight(w.pending)
  {
    if w.pending == [] then w else RunAll(Next(w, alive), alive)
  }

  // ---------------------------------------------------------------------------------
  // What the queue guarantees.

  /** Tasks that complete by themselves (and, on a cache that is gone, all tasks, since
      nothing gets stored) deliver their completions in the order they were submitted. */
  lemma {:induction false} CompletionsFollowSubmissionOrder<T>(w: World<T>, alive: bool)
    requires AllSupported(w.backend, w.pending)
    requires !alive || forall i :: 0 <= i < |w.pending| ==> Direct(w.pending[i].op)
    ensures DeliveryClaims(RunAll(w, alive).delivered) == DeliveryClaims(w.delivered) + TaskClaims(w.pending)
    decreases |w.pending|
  {
    if w.pending == [] {
      assert TaskClaims(w.pending) == [];
      assert DeliveryClaims(w.delivered) + [] == DeliveryClaims(w.delivered);
    } else {
      var task := w.pending[0];
      var v := Next(w, alive);
      DirectStep(w, alive);
      if alive {
        AllDirectTail(w.pending);
      }
      CompletionsFollowSubmissionOrder(v, alive);
      var c := Claim(task.ticket, task.reply);
      assert TaskClaims(w.pending) == [c] + TaskClaims(v.pending);
      ConcatIsAssociative(DeliveryClaims(w.delivered), [c], TaskClaims(v.pending));
    }
  }

  /** The tasks after the first of a queue of tasks that complete by themselves do too. */
  lemma AllDirectTail<T>(ps: seq<Task<T>>)
    requires ps != [] && forall i :: 0 <= i < |ps| ==> Direct(ps[i].op)
    ensures forall i :: 0 <= i < |ps[1..]| ==> Direct(ps[1..][i].op)
  {
    forall i | 0 <= i < |ps[1..]| ensures Direct(ps[1..][i].op) {
      assert ps[1..][i] == ps[i + 1];
    }
  }

  /** Regrouping a concatenation, kept apart so the solver meets it without the rest of the
      induction step in view. */
  lemma ConcatIsAssociative<X>(a: seq<X>, b: seq<X>, c: seq<X>)
    ensures (a + b) + c == a + (b + c)
  {
  }

  /** A task that completes by itself leaves the queue, has its effect on the backend and
      delivers its completion; it starts no download. */
  lemma DirectNext<T>(w: World<T>, alive: bool)
    requires w.pending != [] && AllSupported(w.backend, w.pending) && Direct(w.pending[0].op)
    ensures var e := Run(w.backend, w.pending[0], alive);
      e.delivery.Some? &&
      Next(w, alive) == World(e.backend, w.pending[1..], w.delivered + [e.delivery.value], w.downloads)
  {
    var e := Run(w.backend, w.pending[0], alive);
    assert e.spawned.None? && e.download.None?;
    assert w.pending[1..] + [] == w.pending[1..];
  }

  /** Two tasks that complete by themselves run in turn: the second sees the backend the
      first left, and their completions are delivered in queue order. */
  lemma TwoDirectSteps<T>(w: World<T>, alive: bool)
    requires |w.pending| >= 2 && AllSupported(w.backend, w.pending)
    requires Direct(w.pending[0].op) && Direct(w.pending[1].op)
    ensures var e1 := Run(w.backend, w.pending[0], alive);
      Supports(e1.backend, w.pending[1].op) &&
      var e2 := Run(e1.backend, w.pending[1], alive);
      e1.delivery.Some? && e2.delivery.Some? &&
      Next(Next(w, alive), alive).delivered == w.delivered + [e1.delivery.value, e2.delivery.value] &&
      Next(Next(w, alive), alive).backend == e2.backend
  {
    DirectNext(w, alive);
    var v := Next(w, alive);
    assert v.pending[0] == w.pending[1];
    DirectNext(v, alive);
  }

  /** A task that completes by itself leaves the queue and adds exactly its own completion. */
  lemma DirectStep<T>(w: World<T>, alive: bool)
    requires w.pending != [] && AllSupported(w.backend, w.pending)
    requires !alive || Direct(w.pending[0].op)
    ensures Next(w, alive).pending == w.pending[1..]
    ensures DeliveryClaims(Next(w, alive).delivered)
      == DeliveryClaims(w.delivered) + [Claim(w.pending[0].ticket, w.pending[0].reply)]
    ensures RunAll(w, alive) == RunAll(Next(w, alive), alive)
  {
    var e := Run(w.backend, w.pending[0], alive);
    assert e.spawned.None?;
    assert Next(w, alive).delivered == w.delivered + [e.delivery.value];
    DeliveryClaimsOfConcat(w.delivered, [e.delivery.value]);
  }

  /** Once the cache object is gone, no task touches its state: draining the queue leaves
      the backend as it was. */
  lemma {:induction false} GoneCacheKeepsBackend<T>(w: World<T>)
    requires AllSupported(w.backend, w.pending)
    ensures RunAll(w, false).backend == w.backend
    decreases Weight(w.pending)
  {
    if w.pending != [] {
      GoneCacheKeepsBackend(Next(w, false));
    }
  }

  /** An item that encodes, decodes back, and whose entry can be written and read. */
  ghost predicate StoreRoundTrips<T>(b: Backend<T>, u: Url, item: T) {
    match b
    case FileSystemBackend(s, codecs) =>
      codecs.item.toData(item).Some? && codecs.item.fromData(codecs.item.toData(item).value) == Some(item)
      && FileSystemDataCache.Writable(s, u) && FileSystemDataCache.Readable(s, u)
    case InMemoryBackend(_) => true
  }

  /** The same for an array of items. */
  ghost predicate StoreItemsRoundTrips<T>(b: Backend<T>, u: Url, items: seq<T>) {
    b.FileSystemBackend? &&
    b.codecs.list.toData(items).Some? && b.codecs.list.fromData(b.codecs.list.toData(items).value) == Some(items)
    && FileSystemDataCache.Writable(b.store, u) && FileSystemDataCache.Readable(b.store, u)
  }

  /** A stored item is what the next fetch of its URL gets. */
  lemma StoreThenFetched<T>(b: Backend<T>, u: Url, item: T)
    requires StoreRoundTrips(b, u, item)
    ensures Stored(b, u, item).Ok?
    ensures FetchOrNothing(Stored(b, u, item).value, u, true) == Some(item)
  {
    if b.FileSystemBackend? {
      FileSystemDataCache.StoreThenFetch(b.store, b.codecs.item, u, item);
    }
  }

  /** A stored array is what the next fetch of its URL gets. */
  lemma StoreItemsThenFetched<T>(b: Backend<T>, u: Url, items: seq<T>)
    requires StoreItemsRoundTrips(b, u, items)
    ensures StoredItems(b, u, items).Ok?
    ensures FetchItemsOrNothing(StoredItems(b, u, items).value, u, true) == Some(items)
  {
    FileSystemDataCache.StoreItemsThenFetchItems(b.store, b.codecs, u, items);
  }

  /** A fetch right after a removal of the same URL gets nothing when the removal succeeded
      or the cache was gone. A removal that threw (only a filesystem cache can throw) left
      the entry as it was, and the fetch gets what it would have got before. */
  lemma RemovedThenFetchedNothing<T>(b: Backend<T>, u: Url, alive: bool)
    ensures !alive || Removed(b, u).Ok? ==>
      FetchOrNothing(if alive then KeepOnError(b, Removed(b, u)) else b, u, alive) == None
    ensures alive && Removed(b, u).Err? ==>
      b.FileSystemBackend? && FetchOrNothing(KeepOnError(b, Removed(b, u)), u, alive) == FetchOrNothing(b, u, true)
  {
    if alive && b.FileSystemBackend? {
      FileSystemDataCache.RemoveThenFetch(b.store, b.codecs.item, u);
    }
  }

  /** The in-memory cache never throws. */
  lemma InMemoryNeverThrows<T>(b: Backend<T>, u: Url, item: T)
    requires b.InMemoryBackend?
    ensures Stored(b, u, item).Ok? && Removed(b, u).Ok? && Fetched(b, u).Ok?
  {
  }

  /** Read-after-write: a store submitted without waiting, followed by a fetch of the same
      URL, completes and then hands the fetch the stored item. */
  lemma ReadAfterWrite<T>(w: World<T>, u: Url, item: T)
    requires |w.pending| >= 2 && AllSupported(w.backend, w.pending)
    requires w.pending[0].op == StoreItem(u, item, Done) && w.pending[1].op == FetchItem(u)
    requires StoreRoundTrips(w.backend, u, item)
    ensures Next(Next(w, true), true).delivered == w.delivered + [
      Delivery(w.pending[0].reply, w.pending[0].ticket, Done),
      Delivery(w.pending[1].reply, w.pending[1].ticket, Item(Some(item)))]
  {
    StoreThenFetched(w.backend, u, item);
    TwoDirectSteps(w, true);
  }

  /** The same for arrays on a filesystem cache. */
  lemma ReadAfterWriteItems<T>(w: World<T>, u: Url, items: seq<T>)
    requires |w.pending| >= 2 && AllSupported(w.backend, w.pending)
    requires w.pending[0].op == StoreItems(u, items, Done) && w.pending[1].op == FetchItems(u)
    requires StoreItemsRoundTrips(w.backend, u, items)
    ensures Next(Next(w, true), true).delivered == w.delivered + [
      Delivery(w.pending[0].reply, w.pending[0].ticket, Done),
      Delivery(w.pending[1].reply, w.pending[1].ticket, Items(Some(items)))]
  {
    StoreItemsThenFetched(w.backend, u, items);
    TwoDirectSteps(w, true);
  }

  /** A removal submitted without waiting, followed by a fetch of the same URL: the removal
      completes, then the fetch gets nothing, unless the removal threw, in which case it
      gets the item that was there before. */
  lemma RemoveThenFetch<T>(w: World<T>, u: Url, alive: bool)
    requires |w.pending| >= 2 && AllSupported(w.backend, w.pending)
    requires w.pending[0].op == RemoveItem(u) && w.pending[1].op == FetchItem(u)
    ensures Next(Next(w, alive), alive).delivered == w.delivered + [
      Delivery(w.pending[0].reply, w.pending[0].ticket, Done),
      Delivery(w.pending[1].reply, w.pending[1].ticket,
               Item(if !alive || Removed(w.backend, u).Ok? then None else FetchOrNothing(w.backend, u, true)))]
  {
    RemovedThenFetchedNothing(w.backend, u, alive);
    TwoDirectSteps(w, alive);
  }

  /** `fetchOrDownloadItem` on a hit: the cached item is delivered with the URL that was
      asked for, and no download starts. */
  lemma FetchOrDownloadHit<T>(w: World<T>, alive: bool, item: T)
    requires w.pending != [] && AllSupported(w.backend, w.pending) && w.pending[0].op.FetchOrDownloadItem?
    requires FetchOrNothing(w.backend, w.pending[0].op.url, alive) == Some(item)
    ensures Next(w, alive) == w.(pending := w.pending[1..], delivered := w.delivered + [
      Delivery(w.pending[0].reply, w.pending[0].ticket, ItemOutcome(Succeeded(item, w.pending[0].op.url)))])
  {
  }

  /** `fetchOrDownloadItem` on a miss: the download starts; its failure is forwarded
      unchanged, undecodable bytes fail with `didNotConvertDataToExpectedType`; a decoded
      item is queued for storing, with its delivery attached, or, when the cache is gone,
      delivered at once without being stored. */
  lemma FetchOrDownloadMiss<T>(w: World<T>, alive: bool)
    requires w.pending != [] && AllSupported(w.backend, w.pending) && w.pending[0].op.FetchOrDownloadItem?
    requires FetchOrNothing(w.backend, w.pending[0].op.url, alive).None?
    ensures var t := w.pending[0]; var u := t.op.url; var v := Next(w, alive);
      var c := Classify(t.op.response);
      v.backend == w.backend && v.downloads == w.downloads + [u] &&
      (c.Failure? ==> v.delivered == w.delivered + [Delivery(t.reply, t.ticket, ItemOutcome(Failed(Loading(c.error))))]) &&
      (c.Success? && w.backend.codecs.item.fromData(c.data).None? ==>
        v.delivered == w.delivered + [Delivery(t.reply, t.ticket, ItemOutcome(Failed(Conversion(DidNotConvertDataToExpectedType))))]) &&
      (c.Success? && w.backend.codecs.item.fromData(c.data).Some? && alive ==>
        var x := w.backend.codecs.item.fromData(c.data).value;
        v.delivered == w.delivered &&
        v.pending == w.pending[1..] + [Task(StoreItem(u, x, ItemOutcome(Succeeded(x, u))), t.reply, t.ticket)]) &&
      (c.Success? && w.backend.codecs.item.fromData(c.data).Some? && !alive ==>
        var x := w.backend.codecs.item.fromData(c.data).value;
        v.delivered == w.delivered + [Delivery(t.reply, t.ticket, ItemOutcome(Succeeded(x, u)))])
  {
  }

  /** A downloaded item is stored before its success is delivered: once the queue has run,
      the success has been delivered and a fetch of the URL gets the item. */
  lemma DownloadedItemIsStoredFirst<T>(w: World<T>, x: T)
    requires |w.pending| == 1 && AllSupported(w.backend, w.pending) && w.pending[0].op.FetchOrDownloadItem?
    requires FetchOrNothing(w.backend, w.pending[0].op.url, true).None?
    requires var c := Classify(w.pending[0].op.response);
      c.Success? && w.backend.codecs.item.fromData(c.data) == Some(x)
    requires StoreRoundTrips(w.backend, w.pending[0].op.url, x)
    ensures var t := w.pending[0]; var v := RunAll(w, true);
      v.delivered == w.delivered + [Delivery(t.reply, t.ticket, ItemOutcome(Succeeded(x, t.op.url)))] &&
      FetchOrNothing(v.backend, t.op.url, true) == Some(x)
  {
    var t := w.pending[0];
    var u := t.op.url;
    var v1 := Next(w, true);
    FetchOrDownloadMiss(w, true);
    assert v1.pending == [Task(StoreItem(u, x, ItemOutcome(Succeeded(x, u))), t.reply, t.ticket)];
    assert v1.delivered == w.delivered && v1.backend == w.backend;
    LastTaskRuns(v1, true);
    StoreThenFetched(w.backend, u, x);
  }

  /** The queue's last closure runs and the queue is empty. */
  lemma LastTaskRuns<T>(w: World<T>, alive: bool)
    requires |w.pending| == 1 && AllSupported(w.backend, w.pending)
    requires w.pending[0].op.StoreItem? || w.pending[0].op.StoreItems?
    ensures RunAll(w, alive) == Next(w, alive)
    ensures Next(w, alive).delivered == w.delivered + [Delivery(w.pending[0].reply, w.pending[0].ticket, w.pending[0].op.completion)]
    ensures Next(w, alive).backend == Run(w.backend, w.pending[0], alive).backend
  {
    var v := Next(w, alive);
    assert v.pending == [];
  }

  /** The same for `fetchOrDownloadItems` and arrays. */
  lemma DownloadedItemsAreStoredFirst<T>(w: World<T>, xs: seq<T>)
    requires |w.pending| == 1 && AllSupported(w.backend, w.pending) && w.pending[0].op.FetchOrDownloadItems?
    requires w.backend.FileSystemBackend?
    requires FetchItemsOrNothing(w.backend, w.pending[0].op.url, true).None?
    requires var c := Classify(w.pending[0].op.response);
      c.Success? && w.backend.codecs.list.fromData(c.data) == Some(xs)
    requires StoreItemsRoundTrips(w.backend, w.pending[0].op.url, xs)
    ensures var t := w.pending[0]; var v := RunAll(w, true);
      v.delivered == w.delivered + [Delivery(t.reply, t.ticket, ItemsOutcome(Succeeded(xs, t.op.url)))] &&
      FetchItemsOrNothing(v.backend, t.op.url, true) == Some(xs)
  {
    var t := w.pending[0];
    var u := t.op.url;
    var v1 := Next(w, true);
    assert v1.pending == [Task(StoreItems(u, xs, ItemsOutcome(Succeeded(xs, u))), t.reply, t.ticket)];
    assert v1.delivered == w.delivered && v1.backend == w.backend;
    LastTaskRuns(v1, true);
    StoreItemsThenFetched(w.backend, u, xs);
  }

  /** After `clearAll()` succeeds, the in-memory cache has nothing for any URL, and a
      filesystem cache (whose directory exists) has nothing for any URL whose file name is
      not hidden. */
  lemma ClearedFetchesNothing<T>(b: Backend<T>, u: Url)
    requires b.FileSystemBackend? ==>
      Normalized(b.store.directory) && DirectoryExists(b.store.disk, b.store.directory)
      && (FileName(u) == [] || FileName(u)[0] != '.')
    ensures Fetched(Cleared(b), u) == Ok(None)
  {
    if b.FileSystemBackend? {
      FileSystemDataCache.ClearAllEmptiesVisibleKeys(b.store, b.codecs.item, u);
    }
  }

  /** `Next` is the head task's effect applied to the world. */
  lemma NextIsAdvance<T>(w: World<T>, alive: bool)
    requires w.pending != [] && AllSupported(w.backend, w.pending)
    ensures Next(w, alive) == Advance(w, Run(w.backend, w.pending[0], alive))
  {
  }

  /** One turn of the queue keeps a cache object's bookkeeping consistent. */
  lemma AdvanceKeepsConsistent<T>(w: World<T>, alive: bool, e: Effect<T>, submitted: seq<Claim>, nextTicket: nat)
    requires w.pending != [] && Consistent(w, submitted, nextTicket)
    requires e == Run(w.backend, w.pending[0], alive)
    ensures Consistent(Advance(w, e), submitted, nextTicket)
  {
    NextIsAdvance(w, alive);
  }

  /** A world as a cache object keeps it: every queued task is one the backend offers,
      ticket `i` is the `i`-th call, and every call is owed exactly one completion, queued
      or delivered. */
  ghost predicate Consistent<T>(w: World<T>, submitted: seq<Claim>, nextTicket: nat) {
    AllSupported(w.backend, w.pending) && nextTicket == |submitted|
    && (forall i :: 0 <= i < |submitted| ==> submitted[i].ticket == i)
    && Claims(w) == multiset(submitted)
  }

  /** A cache with nothing queued, delivered or submitted is consistent. */
  lemma EmptyIsConsistent<T>(b: Backend<T>)
    ensures Consistent(World(b, [], [], []), [], 0)
  {
    assert TaskClaims<T>([]) == [] && DeliveryClaims<T>([]) == [];
  }

  /** Appending a task to the queue adds exactly its claim. */
  lemma Enqueued<T>(w: World<T>, task: Task<T>)
    requires AllSupported(w.backend, w.pending) && Supports(w.backend, task.op)
    ensures AllSupported(w.backend, w.pending + [task])
    ensures Claims(w.(pending := w.pending + [task])) == Claims(w) + multiset{Claim(task.ticket, task.reply)}
  {
    var tasks := w.pending + [task];
    forall i | 0 <= i < |tasks| ensures Supports(w.backend, tasks[i].op) {
      if i < |w.pending| {
        assert tasks[i] == w.pending[i];
      }
    }
    TaskClaimsOfConcat(w.pending, [task]);
    assert TaskClaims([task]) == [Claim(task.ticket, task.reply)];
  }

  // ---------------------------------------------------------------------------------
  // The cache object.

  /** One cache object (a `FileSystemDataCache` or an `InMemoryCache`) with its serial
      `localQueue`. Calls append a closure to `pending` and return at once; `Step` runs the
      closure at the head; completions are appended to `delivered`. `alive` turns false
      when the last strong reference to the object is dropped while closures are still
      queued; `submitted` records, per ticket, the reply queue each call asked for. */
  class Cache<!T> {
    var backend: Backend<T>
    var pending: seq<Task<T>>
    var delivered: seq<Delivery<T>>
    var downloads: seq<Url>
    var alive: bool
    var nextTicket: nat
    ghost var submitted: seq<Claim>

    function State(): World<T>
      reads this
    {
      World(backend, pending, delivered, downloads)
    }

    /** Every queued task is one the backend offers; ticket `i` is the `i`-th call; every
        call is owed exactly one completion, queued or delivered. */
    ghost predicate Valid()
      reads this
    {
      Consistent(State(), submitted, nextTicket)
    }

    /** `FileSystemDataCache.init(rootDirectory:subdirectoryName:)`: picks the subdirectory
        and creates it if needed; a failure to create it is logged and ignored. */
    constructor OnDisk(root: UserDirectory, paths: SearchPaths, subdirectoryName: Option<string>,
                       className: string, disk: FileSystem, codecs: Codecs<T>)
      ensures Valid() && alive && pending == [] && delivered == [] && downloads == [] && submitted == []
      ensures backend == FileSystemBackend(
        FileSystemDataCache.Init(FileSystemDataCache.CacheDirectory(root, paths, subdirectoryName, className), disk),
        codecs)
    {
      var directory := FileSystemDataCache.CacheDirectory(root, paths, subdirectoryName, className);
      var store := FileSystemDataCache.Init(directory, disk);
      var b := FileSystemBackend(store, codecs);
      backend := b;
      pending := [];
      delivered := [];
      downloads := [];
      alive := true;
      nextTicket := 0;
      submitted := [];
      new;
      assert State() == World(b, [], [], []);
      EmptyIsConsistent(b);
    }

    /** `InMemoryCache.init()`: an empty table. */
    constructor InMemory()
      ensures Valid() && alive && pending == [] && delivered == [] && downloads == [] && submitted == []
      ensures backend == InMemoryBackend(map[])
    {
      backend := InMemoryBackend(map[]);
      pending := [];
      delivered := [];
      downloads := [];
      alive := true;
      nextTicket := 0;
      submitted := [];
      new;
      assert State() == World(InMemoryBackend(map[]), [], [], []);
      EmptyIsConsistent(backend);
    }

    /** `localQueue.async`: the closure goes to the tail of the queue under a fresh ticket. */
    method Submit(op: Op<T>, reply: Reply) returns (ticket: nat)
      requires Valid() && Supports(backend, op)
      modifies this
      ensures Valid() && ticket == old(nextTicket)
      ensures pending == old(pending) + [Task(op, reply, ticket)]
      ensures submitted == old(submitted) + [Claim(ticket, reply)]
      ensures backend == old(backend) && delivered == old(delivered) && downloads == old(downloads)
      ensures alive == old(alive)
    {
      ticket := nextTicket;
      var task := Task(op, reply, ticket);
      ghost var w := State();
      Enqueued(w, task);
      pending := pending + [task];
      submitted := submitted + [Claim(ticket, reply)];
      nextTicket := nextTicket + 1;
      assert State() == w.(pending := w.pending + [task]);
    }

    /** `store(item:for:callbackOn:completion:)`. */
    method Store(item: T, u: Url, reply: Reply := Main) returns (ticket: nat)
      requires Valid()
      modifies this
      ensures Valid() && pending == old(pending) + [Task(StoreItem(u, item, Done), reply, ticket)]
      ensures submitted == old(submitted) + [Claim(ticket, reply)]
      ensures backend == old(backend) && delivered == old(delivered) && downloads == old(downloads)
      ensures alive == old(alive) && ticket == old(nextTicket)
    {
      ticket := Submit(StoreItem(u, item, Done), reply);
    }

    /** `fetchItem(for:callbackOn:completion:)`. */
    method FetchItem(u: Url, reply: Reply := Main) returns (ticket: nat)
      requires Valid()
      modifies this
      ensures Valid() && pending == old(pending) + [Task(Op.FetchItem(u), reply, ticket)]
      ensures submitted == old(submitted) + [Claim(ticket, reply)]
      ensures backend == old(backend) && delivered == old(delivered) && downloads == old(downloads)
      ensures alive == old(alive) && ticket == old(nextTicket)
    {
      ticket := Submit(Op.FetchItem(u), reply);
    }

    /** `removeItem(for:callbackOn:completion:)`. */
    method RemoveItem(u: Url, reply: Reply := Main) returns (ticket: nat)
      requires Valid()
      modifies this
      ensures Valid() && pending == old(pending) + [Task(Op.RemoveItem(u), reply, ticket)]
      ensures submitted == old(submitted) + [Claim(ticket, reply)]
      ensures backend == old(backend) && delivered == old(delivered) && downloads == old(downloads)
      ensures alive == old(alive) && ticket == old(nextTicket)
    {
      ticket := Submit(Op.RemoveItem(u), reply);
    }

    /** `store(items:for:callbackOn:completion:)` of a filesystem cache. */
    method StoreItems(items: seq<T>, u: Url, reply: Reply := Main) returns (ticket: nat)
      requires Valid() && backend.FileSystemBackend?
      modifies this
      ensures Valid() && pending == old(pending) + [Task(Op.StoreItems(u, items, Done), reply, ticket)]
      ensures submitted == old(submitted) + [Claim(ticket, reply)]
      ensures backend == old(backend) && delivered == old(delivered) && downloads == old(downloads)
      ensures alive == old(alive) && ticket == old(nextTicket)
    {
      ticket := Submit(Op.StoreItems(u, items, Done), reply);
    }

    /** `fetchItems(for:callbackOn:completion:)` of a filesystem cache. */
    method FetchItems(u: Url, reply: Reply := Main) returns (ticket: nat)
      requires Valid() && backend.FileSystemBackend?
      modifies this
      ensures Valid() && pending == old(pending) + [Task(Op.FetchItems(u), reply, ticket)]
      ensures submitted == old(submitted) + [Claim(ticket, reply)]
      ensures backend == old(backend) && delivered == old(delivered) && downloads == old(downloads)
      ensures alive == old(alive) && ticket == old(nextTicket)
    {
      ticket := Submit(Op.FetchItems(u), reply);
    }

    /** `fetchOrDownloadItem(from:callbackOn:...)` of a filesystem cache; `response` is what
        the download would get if it is started. */
    method FetchOrDownloadItem(u: Url, response: Response, reply: Reply := Main) returns (ticket: nat)
      requires Valid() && backend.FileSystemBackend?
      modifies this
      ensures Valid() && pending == old(pending) + [Task(Op.FetchOrDownloadItem(u, response), reply, ticket)]
      ensures submitted == old(submitted) + [Claim(ticket, reply)]
      ensures backend == old(backend) && delivered == old(delivered) && downloads == old(downloads)
      ensures alive == old(alive) && ticket == old(nextTicket)
    {
      ticket := Submit(Op.FetchOrDownloadItem(u, response), reply);
    }

    /** `fetchOrDownloadItems(from:callbackOn:...)` of a filesystem cache. */
    method FetchOrDownloadItems(u: Url, response: Response, reply: Reply := Main) returns (ticket: nat)
      requires Valid() && backend.FileSystemBackend?
      modifies this
      ensures Valid() && pending == old(pending) + [Task(Op.FetchOrDownloadItems(u, response), reply, ticket)]
      ensures submitted == old(submitted) + [Claim(ticket, reply)]
      ensures backend == old(backend) && delivered == old(delivered) && downloads == old(downloads)
      ensures alive == old(alive) && ticket == old(nextTicket)
    {
      ticket := Submit(Op.FetchOrDownloadItems(u, response), reply);
    }

    /** `actuallyStore(item:for:)`: the backend is updated in place, or stays as it was and
        the error is returned. */
    method ActuallyStore(item: T, u: Url) returns (err: Option<IoError>)
      modifies this
      ensures backend == KeepOnError(old(backend), Stored(old(backend), u, item))
      ensures err.Some? <==> Stored(old(backend), u, item).Err?
      ensures pending == old(pending) && delivered == old(delivered) && downloads == old(downloads)
      ensures alive == old(alive) && nextTicket == old(nextTicket) && submitted == old(submitted)
    {
      match backend
      case FileSystemBackend(s, codecs) =>
        var r := FileSystemDataCache.ActuallyStore(s, codecs.item, u, item);
        if r.Ok? {
          backend := FileSystemBackend(r.value, codecs);
          err := None;
        } else {
          err := Some(r.error);
        }
      case InMemoryBackend(t) =>
        backend := InMemoryBackend(InMemoryCache.ActuallyStore(t, u, item));
        err := None;
    }

    /** `actuallyStore(items:for:)`. */
    method ActuallyStoreItems(items: seq<T>, u: Url) returns (err: Option<IoError>)
      requires backend.FileSystemBackend?
      modifies this
      ensures backend == KeepOnError(old(backend), StoredItems(old(backend), u, items))
      ensures err.Some? <==> StoredItems(old(backend), u, items).Err?
      ensures pending == old(pending) && delivered == old(delivered) && downloads == old(downloads)
      ensures alive == old(alive) && nextTicket == old(nextTicket) && submitted == old(submitted)
    {
      var r := FileSystemDataCache.ActuallyStoreItems(backend.store, backend.codecs, u, items);
      if r.Ok? {
        backend := backend.(store := r.value);
        err := None;
      } else {
        err := Some(r.error);
      }
    }

    /** `actuallyRemoveItem(for:)`. */
    method ActuallyRemoveItem(u: Url) returns (err: Option<IoError>)
      modifies this
      ensures backend == KeepOnError(old(backend), Removed(old(backend), u))
      ensures err.Some? <==> Removed(old(backend), u).Err?
      ensures pending == old(pending) && delivered == old(delivered) && downloads == old(downloads)
      ensures alive == old(alive) && nextTicket == old(nextTicket) && submitted == old(submitted)
    {
      match backend
      case FileSystemBackend(s, codecs) =>
        var r := FileSystemDataCache.ActuallyRemoveItem(s, u);
        if r.Ok? {
          backend := FileSystemBackend(r.value, codecs);
          err := None;
        } else {
          err := Some(r.error);
        }
      case InMemoryBackend(t) =>
        backend := InMemoryBackend(InMemoryCache.ActuallyRemoveItem(t, u));
        err := None;
    }

    /** `actuallyFetchItem(for:)`: reads the backend and changes nothing. */
    method ActuallyFetchItem(u: Url) returns (r: Result<Option<T>, IoError>)
      ensures r == Fetched(backend, u)
    {
      match backend
      case FileSystemBackend(s, codecs) =>
        r := FileSystemDataCache.ActuallyFetchItem(s, codecs.item, u);
      case InMemoryBackend(t) =>
        r := Ok(InMemoryCache.ActuallyFetchItem(t, u));
    }

    /** `actuallyFetchItems(for:)`. */
    method ActuallyFetchItems(u: Url) returns (r: Result<Option<seq<T>>, IoError>)
      requires backend.FileSystemBackend?
      ensures r == FetchedItems(backend, u)
    {
      r := FileSystemDataCache.ActuallyFetchItems(backend.store, backend.codecs, u);
    }

    /** The body of the closure at the head of `localQueue`. The completion is deferred, so
        it is produced on every path; with `self` gone the requirement is not called; a
        thrown error is logged and dropped. For a `fetchOrDownload` call the fetch runs
        first; on a miss the download is started and resolved, and a decoded value is
        handed to a new store closure whose completion delivers it. */
    method RunHead(task: Task<T>) returns (delivery: Option<Delivery<T>>, spawned: Option<Task<T>>,
                                           download: Option<Url>)
      requires Supports(backend, task.op)
      modifies this
      ensures Effect(backend, delivery, spawned, download) == Run(old(backend), task, alive)
      ensures pending == old(pending) && delivered == old(delivered) && downloads == old(downloads)
      ensures alive == old(alive) && nextTicket == old(nextTicket) && submitted == old(submitted)
    {
      delivery, spawned, download := None, None, None;
      match task.op
      case StoreItem(u, item, completion) =>
        if alive {
          var err := ActuallyStore(item, u);
        }
        delivery := Deliver(task, completion);
      case StoreItems(u, items, completion) =>
        if alive {
          var err := ActuallyStoreItems(items, u);
        }
        delivery := Deliver(task, completion);
      case FetchItem(u) =>
        var item: Option<T> := None;
        if alive {
          var r := ActuallyFetchItem(u);
          if r.Ok? {
            item := r.value;
          }
        }
        delivery := Deliver(task, Item(item));
      case FetchItems(u) =>
        var items: Option<seq<T>> := None;
        if alive {
          var r := ActuallyFetchItems(u);
          if r.Ok? {
            items := r.value;
          }
        }
        delivery := Deliver(task, Items(items));
      case RemoveItem(u) =>
        if alive {
          var err := ActuallyRemoveItem(u);
        }
        delivery := Deliver(task, Done);
      case FetchOrDownloadItem(u, response) =>
        var cached: Option<T> := None;
        if alive {
          var r := ActuallyFetchItem(u);
          if r.Ok? {
            cached := r.value;
          }
        }
        if cached.Some? {
          delivery := Deliver(task, ItemOutcome(Succeeded(cached.value, u)));
        } else {
          download := Some(u);
          var outcome := Resolve(u, response, backend.codecs.item.fromData);
          if outcome.Succeeded? && alive {
            spawned := Some(Task(Op.StoreItem(u, outcome.value, ItemOutcome(outcome)), task.reply, task.ticket));
          } else {
            delivery := Deliver(task, ItemOutcome(outcome));
          }
        }
      case FetchOrDownloadItems(u, response) =>
        var cached: Option<seq<T>> := None;
        if alive {
          var r := ActuallyFetchItems(u);
          if r.Ok? {
            cached := r.value;
          }
        }
        if cached.Some? {
          delivery := Deliver(task, ItemsOutcome(Succeeded(cached.value, u)));
        } else {
          download := Some(u);
          var outcome := Resolve(u, response, backend.codecs.list.fromData);
          if outcome.Succeeded? && alive {
            spawned := Some(Task(Op.StoreItems(u, outcome.value, ItemsOutcome(outcome)), task.reply, task.ticket));
          } else {
            delivery := Deliver(task, ItemsOutcome(outcome));
          }
        }
    }

    /** One turn of `localQueue`: the closure at the head leaves the queue and runs; its
        completion is delivered, or the store it queued goes to the tail. */
    method Step()
      requires Valid() && pending != []
      modifies this
      ensures Valid() && State() == Advance(old(State()), Run(old(backend), old(pending[0]), alive))
      ensures alive == old(alive) && nextTicket == old(nextTicket) && submitted == old(submitted)
    {
      ghost var w := State();
      var task := pending[0];
      var rest := pending[1..];
      var delivery, spawned, download := RunHead(task);
      ghost var e := Effect(backend, delivery, spawned, download);
      assert e == Run(w.backend, w.pending[0], alive);
      pending := rest + OptionSeq(spawned);
      delivered := delivered + OptionSeq(delivery);
      downloads := downloads + OptionSeq(download);
      assert State() == Advance(w, e);
      AdvanceKeepsConsistent(w, alive, e, submitted, nextTicket);
    }

    /** `localQueue` runs until it is empty. Every call made so far has then had its
        completion delivered, exactly once, on the queue it asked for. */
    method Drain()
      requires Valid()
      modifies this
      ensures Valid() && pending == [] && State() == RunAll(old(State()), alive)
      ensures multiset(DeliveryClaims(delivered)) == multiset(submitted)
      ensures alive == old(alive) && nextTicket == old(nextTicket) && submitted == old(submitted)
    {
      while pending != []
        invariant Valid() && RunAll(State(), alive) == RunAll(old(State()), alive)
        invariant alive == old(alive) && nextTicket == old(nextTicket) && submitted == old(submitted)
        decreases Weight(pending)
      {
        NextIsAdvance(State(), alive);
        Step();
      }
      assert TaskClaims(pending) == [];
    }

    /** `clearAll()`, called directly rather than through the queue. On disk, the visible
        entries of the cache directory are removed one by one; what was removed before an
        error stays removed, and the error is thrown exactly when the listing or a removal
        is refused. In memory, `removeAllObjects()`, which never throws. */
    method ClearAll() returns (err: Option<IoError>)
      requires Valid()
      modifies this
      ensures Valid()
      ensures err.None? ==> backend == Cleared(old(backend))
      ensures backend.InMemoryBackend? ==> err.None?
      ensures old(backend).FileSystemBackend? ==>
        (err.Some? <==> ClearFails(old(backend).store.disk, old(backend).store.directory))
      ensures old(backend).FileSystemBackend? ==>
        backend.FileSystemBackend? && PartlyCleared(old(backend).store.disk, old(backend).store.directory, backend.store.disk)
      ensures SameCache(old(backend), backend)
      ensures pending == old(pending) && delivered == old(delivered) && downloads == old(downloads)
      ensures alive == old(alive) && submitted == old(submitted)
    {
      match backend
      case FileSystemBackend(s, codecs) =>
        var disk;
        disk, err := FileManagerHelper.RemoveContentsOfDirectory(s.disk, s.directory);
        backend := FileSystemBackend(s.(disk := disk), codecs);
      case InMemoryBackend(t) =>
        backend := InMemoryBackend(InMemoryCache.ClearAll(t));
        err := None;
    }

    /** `NSCache` dropping entries of an in-memory cache on its own. */
    method Evict(keys: set<string>)
      requires backend.InMemoryBackend?
      modifies this
      ensures backend == InMemoryBackend(InMemoryCache.Evict(old(backend).table, keys))
      ensures pending == old(pending) && delivered == old(delivered) && downloads == old(downloads)
      ensures alive == old(alive) && nextTicket == old(nextTicket) && submitted == old(submitted)
    {
      backend := InMemoryBackend(InMemoryCache.Evict(backend.table, keys));
    }

    /** The last strong reference is dropped: closures still queued find `self` gone. */
    method Release()
      modifies this
      ensures !alive
      ensures backend == old(backend) && pending == old(pending) && delivered == old(delivered)
      ensures downloads == old(downloads) && nextTicket == old(nextTicket) && submitted == old(submitted)
    {
      alive := false;
    }
  }
}
