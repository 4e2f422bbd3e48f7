/** `BufferedAsyncEnumerable<T>` and `BufferedAsyncEnumerator<T>`: a query result materialised
    into a list as soon as the enumerable is built, then handed out again as an asynchronous
    enumeration that disposes the context at the end. Each `await` is a sequential call. */
module Buffered {
  import opened Errors
  import opened Runtime

  class BufferedAsyncEnumerator<T> {
    const listTask: ListTask<T>
    const dbSet: Option<Context>
    const log: Log
    var listEnumerator: Option<Cursor<T>>

    /** Stores the fields and nothing else: no null checks, no work. */
    constructor (listTask: ListTask<T>, dbSet: Option<Context>, log: Log)
      ensures this.listTask == listTask && this.dbSet == dbSet && this.log == log
      ensures listEnumerator.None?
    {
      this.listTask := listTask;
      this.dbSet := dbSet;
      this.log := log;
      listEnumerator := None;
    }

    /** The list cursor, once there is one. */
    function Inner(): set<object>
      reads this
    {
      if listEnumerator.Some? then {listEnumerator.value} else {}
    }

    /** A list cursor exists only over the completed list, and every event goes to `log`. */
    ghost predicate Valid()
      reads this, Inner()
    {
      (listEnumerator.Some? ==>
        listTask.Completed? && listEnumerator.value.Valid() &&
        listEnumerator.value.items == listTask.list && listEnumerator.value.log == log) &&
      (dbSet.Some? ==> dbSet.value.log == log)
    }

    /** `Current`: `default` (here `None`) before the first `MoveNextAsync`, else the list
        cursor's. */
    function Current(): (r: Option<T>)
      reads this, Inner()
      ensures listEnumerator.None? ==> r.None?
      ensures r.Some? <==> listEnumerator.Some? && 1 <= listEnumerator.value.position <= |listEnumerator.value.items|
      ensures r.Some? ==> r.value == listEnumerator.value.items[listEnumerator.value.position - 1]
    {
      if listEnumerator.None? then None else listEnumerator.value.Current()
    }

    /** `MoveNextAsync`: the first call awaits the list (its exception propagates and no cursor
        is made) and opens a cursor on it; later calls reuse that cursor. */
    method MoveNextAsync() returns (r: Result<bool>)
      requires Valid()
      modifies this, Inner()
      ensures Valid()
      ensures old(listEnumerator).Some? ==> listEnumerator == old(listEnumerator)
      ensures old(listEnumerator).None? && listTask.Faulted? ==>
        r == Fail(listTask.error) && listEnumerator.None?
      ensures old(listEnumerator).None? && listTask.Completed? ==>
        listEnumerator.Some? && fresh(listEnumerator.value) && listEnumerator.value.position == 1 &&
        listEnumerator.value.disposeCount == 0 && listEnumerator.value.id == |log.events|
      ensures old(listEnumerator).Some? ==>
        var p := old(listEnumerator.value.position);
        listEnumerator.value.position == (if p <= |listTask.list| then p + 1 else p) &&
        listEnumerator.value.disposeCount == old(listEnumerator.value.disposeCount)
      ensures r.Ok? <==> listEnumerator.Some?
      ensures r.Ok? ==> (r.value <==> listEnumerator.value.position <= |listTask.list|)
    {
      if listEnumerator.None? {
        if listTask.Faulted? {
          return Fail(listTask.error);
        }
        var c := new Cursor(|log.events|, log, listTask.list);
        listEnumerator := Some(c);
      }
      var more := listEnumerator.value.MoveNext();
      return Ok(more);
    }

    /** `DisposeAsync`: the list cursor, then the context. Without a cursor (no successful
        `MoveNextAsync` yet) the cursor's `Dispose` is a null dereference and the context is
        not disposed. */
    method DisposeAsync() returns (r: Result<()>)
      requires Valid()
      modifies Inner(), log, if dbSet.Some? then {dbSet.value} else {}
      ensures Valid()
      ensures listEnumerator.None? ==> r == Fail(NullReference) && unchanged(log)
      ensures listEnumerator.None? && dbSet.Some? ==> unchanged(dbSet.value)
      ensures listEnumerator.Some? && dbSet.None? ==>
        r == Fail(NullReference) && log.events == old(log.events) + [EnumeratorDisposed(listEnumerator.value.id)]
      ensures listEnumerator.Some? && dbSet.Some? ==>
        r == Ok(()) && dbSet.value.disposeCount == old(dbSet.value.disposeCount) + 1 &&
        log.events == old(log.events) + [EnumeratorDisposed(listEnumerator.value.id), ContextDisposed(dbSet.value.id)]
      ensures listEnumerator.Some? ==>
        listEnumerator.value.disposeCount == old(listEnumerator.value.disposeCount) + 1 &&
        listEnumerator.value.position == old(listEnumerator.value.position)
    {
      if listEnumerator.None? {
        return Fail(NullReference);
      }
      listEnumerator.value.Dispose();
      if dbSet.None? {
        return Fail(NullReference);
      }
      dbSet.value.Dispose();
      return Ok(());
    }
  }

  class BufferedAsyncEnumerable<T> {
    const dbSet: Option<Context>
    const log: Log
    const list: ListTask<T>

    constructor (list: ListTask<T>, dbSet: Option<Context>, log: Log)
      ensures this.list == list && this.dbSet == dbSet && this.log == log
    {
      this.list := list;
      this.dbSet := dbSet;
      this.log := log;
    }

    predicate Valid() {
      dbSet.Some? ==> dbSet.value.log == log
    }

    /** The C# constructor: `ToListAsync` runs over the source at once (a null source is
        rejected by it) and the result is kept; the disposable is stored unchecked. */
    static method Create(source: Option<Source<T>>, dbSet: Option<Context>) returns (r: Result<BufferedAsyncEnumerable<T>>)
      requires source.Some? && dbSet.Some? ==> source.value.log == dbSet.value.log
      modifies if source.Some? then {source.value.log} else {}
      ensures source.None? ==> r == Fail(ArgumentNull("source"))
      ensures source.Some? ==>
        r.Ok? && fresh(r.value) && r.value.Valid() &&
        r.value.list == (if source.value.failure.None? then Completed(source.value.items) else Faulted(source.value.failure.value)) &&
        r.value.dbSet == dbSet && r.value.log == source.value.log &&
        source.value.log.events == old(source.value.log.events) + [SourceMaterialised(source.value.id)]
    {
      if source.None? {
        return Fail(ArgumentNull("source"));
      }
      var t := source.value.ToList();
      var b := new BufferedAsyncEnumerable(t, dbSet, source.value.log);
      return Ok(b);
    }

    /** `GetAsyncEnumerator`: a fresh enumerator sharing the one list and the one disposable;
        the source is not enumerated again and the token is not used. */
    method GetAsyncEnumerator(cancellationToken: CancellationToken) returns (e: BufferedAsyncEnumerator<T>)
      requires Valid()
      ensures fresh(e) && e.Valid() && e.listEnumerator.None?
      ensures e.listTask == list && e.dbSet == dbSet && e.log == log
    {
      e := new BufferedAsyncEnumerator(list, dbSet, log);
    }
  }

  /** A caller's `await foreach` over a buffered enumerable: `MoveNextAsync`/`Current` until
      false, with `DisposeAsync` in a `finally`, whose exception replaces any earlier one. A
      completed list is seen in order and the context disposed once; a faulted list surfaces
      as a `NullReferenceException` from the disposal and the context stays undisposed. */
  method AwaitForEach<T>(b: BufferedAsyncEnumerable<T>, cancellationToken: CancellationToken) returns (r: Result<seq<T>>)
    requires b.Valid()
    modifies b.log, if b.dbSet.Some? then {b.dbSet.value} else {}
    ensures b.list.Faulted? ==> r == Fail(NullReference) && unchanged(b.log)
    ensures b.list.Faulted? && b.dbSet.Some? ==> unchanged(b.dbSet.value)
    ensures b.list.Completed? && b.dbSet.None? ==>
      r == Fail(NullReference) && b.log.events == old(b.log.events) + [EnumeratorDisposed(|old(b.log.events)|)]
    ensures b.list.Completed? && b.dbSet.Some? ==>
      r == Ok(b.list.list) && b.dbSet.value.disposeCount == old(b.dbSet.value.disposeCount) + 1 &&
      b.log.events == old(b.log.events) + [EnumeratorDisposed(|old(b.log.events)|), ContextDisposed(b.dbSet.value.id)]
  {
    var e := b.GetAsyncEnumerator(cancellationToken);
    var step := e.MoveNextAsync();
    if step.Fail? {
      // The `finally` runs with no list cursor, so its exception is the one that escapes.
      var d := e.DisposeAsync();
      return Fail(d.error);
    }
    var c := e.listEnumerator.value;
    var xs := [];
    while step.value
      invariant e.Valid() && e.listEnumerator == Some(c) && fresh(c)
      invariant 1 <= c.position && c.disposeCount == 0
      invariant step.Ok? && (step.value <==> c.position <= |c.items|)
      invariant xs == c.items[..c.position - 1]
      invariant unchanged(b.log) && c.id == |b.log.events|
      invariant b.dbSet.Some? ==> unchanged(b.dbSet.value)
      decreases |c.items| + 1 - c.position
    {
      xs := xs + [e.Current().value];
      step := e.MoveNextAsync();
    }
    assert xs == c.items;
    var d := e.DisposeAsync();
    if d.Fail? {
      return Fail(d.error);
    }
    return Ok(xs);
  }
}
