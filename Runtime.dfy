/** The objects the wrappers and the query context act on: a database context that can be
    disposed, a list cursor, and an entity source that can be enumerated or materialised.
    Every observable step is appended to one shared event log, so the order of disposals can
    be stated. An `await` is modelled as an ordinary sequential call. */
module Runtime {
  import opened Errors
  import opened Expressions

  datatype Event =
    | EnumeratorOpened(sourceId: nat)       // `GetEnumerator`/`GetAsyncEnumerator` on a source
    | SourceMaterialised(sourceId: nat)     // `ToList`/`ToListAsync` ran over a source
    | EnumeratorDisposed(cursorId: nat)
    | ContextDisposed(contextId: nat)

  /** The world's event log. */
  class Log {
    var events: seq<Event>

    constructor ()
      ensures events == []
    {
      events := [];
    }
  }

  /** `QueryTrackingBehavior`. */
  datatype Tracking = TrackAll | NoTracking

  /** A `DbContext`: `provider` is the query provider behind its `Set<TEntity>()`, which
      differs from context to context. The wrappers only see a context as an
      `IDisposable`/`IAsyncDisposable`; `DisposeAsync` and `Dispose` have the same effect here. */
  class Context {
    const id: nat
    const log: Log
    const provider: Provider
    var tracking: Tracking
    var disposeCount: nat

    constructor (id: nat, log: Log, provider: Provider)
      ensures this.id == id && this.log == log && this.provider == provider
      ensures tracking == TrackAll && disposeCount == 0
    {
      this.id := id;
      this.log := log;
      this.provider := provider;
      tracking := TrackAll;
      disposeCount := 0;
    }

    method Dispose()
      modifies this, log
      ensures disposeCount == old(disposeCount) + 1 && tracking == old(tracking)
      ensures log.events == old(log.events) + [ContextDisposed(id)]
    {
      disposeCount := disposeCount + 1;
      log.events := log.events + [ContextDisposed(id)];
    }
  }

  /** An `IEnumerator<T>` (or `IAsyncEnumerator<T>`) over a fixed sequence. `position` is 0
      before the first element, `k` while on `items[k - 1]`, and `|items| + 1` past the end. */
  class Cursor<T> {
    const id: nat
    const log: Log
    const items: seq<T>
    var position: nat
    var disposeCount: nat

    constructor (id: nat, log: Log, items: seq<T>)
      ensures this.id == id && this.log == log && this.items == items
      ensures position == 0 && disposeCount == 0
    {
      this.id := id;
      this.log := log;
      this.items := items;
      position := 0;
      disposeCount := 0;
    }

    predicate Valid()
      reads this
    {
      position <= |items| + 1
    }

    /** `Current`: the element under the cursor, `None` (the default value) off the sequence. */
    function Current(): Option<T>
      reads this
    {
      if 1 <= position <= |items| then Some(items[position - 1]) else None
    }

    method MoveNext() returns (more: bool)
      requires Valid()
      modifies this
      ensures Valid()
      ensures position == if old(position) <= |items| then old(position) + 1 else old(position)
      ensures more <==> position <= |items|
      ensures disposeCount == old(disposeCount)
    {
      if position <= |items| {
        position := position + 1;
      }
      more := position <= |items|;
    }

    method Reset()
      modifies this
      ensures Valid() && position == 0 && disposeCount == old(disposeCount)
    {
      position := 0;
    }

    method Dispose()
      modifies this, log
      ensures disposeCount == old(disposeCount) + 1 && position == old(position)
      ensures log.events == old(log.events) + [EnumeratorDisposed(id)]
    {
      disposeCount := disposeCount + 1;
      log.events := log.events + [EnumeratorDisposed(id)];
    }
  }

  /** A `CancellationToken`. */
  datatype CancellationToken = CancellationToken(isCancellationRequested: bool)

  /** A materialised list, or the exception materialising it raised. */
  datatype ListTask<T> = Completed(list: seq<T>) | Faulted(error: Error)

  /** An `IEnumerable<T>`/`IAsyncEnumerable<T>` produced by a query: the elements it yields
      and, when materialising it fails, the exception raised. */
  class Source<T> {
    const id: nat
    const log: Log
    const items: seq<T>
    const failure: Option<Error>

    constructor (id: nat, log: Log, items: seq<T>, failure: Option<Error>)
      ensures this.id == id && this.log == log && this.items == items && this.failure == failure
    {
      this.id := id;
      this.log := log;
      this.items := items;
      this.failure := failure;
    }

    /** A fresh cursor before the first element; its id is the position of the opening event. */
    method GetEnumerator() returns (c: Cursor<T>)
      modifies log
      ensures fresh(c) && c.log == log && c.items == items && c.id == |old(log.events)|
      ensures c.Valid() && c.position == 0 && c.disposeCount == 0
      ensures log.events == old(log.events) + [EnumeratorOpened(id)]
    {
      c := new Cursor(|log.events|, log, items);
      log.events := log.events + [EnumeratorOpened(id)];
    }

    /** `ToList`/`ToListAsync`: the elements in order, or the enumeration's exception. */
    method ToList() returns (t: ListTask<T>)
      modifies log
      ensures t == if failure.None? then Completed(items) else Faulted(failure.value)
      ensures log.events == old(log.events) + [SourceMaterialised(id)]
    {
      t := if failure.None? then Completed(items) else Faulted(failure.value);
      log.events := log.events + [SourceMaterialised(id)];
    }
  }
}
