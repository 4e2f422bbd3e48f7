/** `AutoDisposingAsyncEnumerator<T>` and `AutoDisposingAsyncEnumerable<T>`: the asynchronous
    counterparts of the auto-disposing wrappers. Each `await` is a sequential call. */
module AutoDisposingAsync {
  import opened Errors
  import opened Runtime

  class AutoDisposingAsyncEnumerator<T> {
    const enumerator: Cursor<T>
    const asyncDisposable: Context

    /** Stores the two fields; `Create` is the C# constructor with its checks. */
    constructor (enumerator: Cursor<T>, asyncDisposable: Context)
      ensures this.enumerator == enumerator && this.asyncDisposable == asyncDisposable
    {
      this.enumerator := enumerator;
      this.asyncDisposable := asyncDisposable;
    }

    predicate Valid()
      reads enumerator
    {
      enumerator.Valid() && enumerator.log == asyncDisposable.log
    }

    /** The constructor: a null source is rejected first; the source's async enumerator is
        obtained (with no cancellation token); only then is a null disposable rejected. */
    static method Create(source: Option<Source<T>>, asyncDisposable: Option<Context>) returns (r: Result<AutoDisposingAsyncEnumerator<T>>)
      requires source.Some? && asyncDisposable.Some? ==> source.value.log == asyncDisposable.value.log
      modifies if source.Some? then {source.value.log} else {}
      ensures source.None? ==> r == Fail(ArgumentNull("source"))
      ensures source.Some? ==>
        source.value.log.events == old(source.value.log.events) + [EnumeratorOpened(source.value.id)]
      ensures source.Some? && asyncDisposable.None? ==> r == Fail(ArgumentNull("asyncDisposable"))
      ensures source.Some? && asyncDisposable.Some? ==>
        r.Ok? && fresh(r.value) && fresh(r.value.enumerator) && r.value.Valid() &&
        r.value.enumerator.items == source.value.items && r.value.enumerator.position == 0 &&
        r.value.asyncDisposable == asyncDisposable.value &&
        r.value.enumerator.id == |old(source.value.log.events)|
    {
      if source.None? {
        return Fail(ArgumentNull("source"));
      }
      var inner := source.value.GetEnumerator();
      if asyncDisposable.None? {
        return Fail(ArgumentNull("asyncDisposable"));
      }
      var e := new AutoDisposingAsyncEnumerator(inner, asyncDisposable.value);
      return Ok(e);
    }

    /** `Current` is the inner enumerator's: the element under it while on the source,
        the default value (`None`) before the first element and past the end. */
    function Current(): (r: Option<T>)
      reads enumerator
      ensures r.Some? <==> 1 <= enumerator.position <= |enumerator.items|
      ensures r.Some? ==> r.value == enumerator.items[enumerator.position - 1]
    {
      enumerator.Current()
    }

    /** `MoveNextAsync` is the inner enumerator's; reaching the end releases nothing. */
    method MoveNextAsync() returns (more: bool)
      requires Valid()
      modifies enumerator
      ensures Valid()
      ensures enumerator.position ==
        if old(enumerator.position) <= |enumerator.items| then old(enumerator.position) + 1 else old(enumerator.position)
      ensures more <==> enumerator.position <= |enumerator.items|
      ensures enumerator.disposeCount == old(enumerator.disposeCount)
      ensures unchanged(asyncDisposable) && unchanged(asyncDisposable.log)
    {
      more := enumerator.MoveNext();
    }

    /** `DisposeAsync`: the inner enumerator's disposal completes before the context's. */
    method DisposeAsync()
      requires Valid()
      modifies enumerator, asyncDisposable, asyncDisposable.log
      ensures Valid() && enumerator.position == old(enumerator.position)
      ensures enumerator.disposeCount == old(enumerator.disposeCount) + 1
      ensures asyncDisposable.disposeCount == old(asyncDisposable.disposeCount) + 1
      ensures asyncDisposable.tracking == old(asyncDisposable.tracking)
      ensures asyncDisposable.log.events ==
        old(asyncDisposable.log.events) + [EnumeratorDisposed(enumerator.id), ContextDisposed(asyncDisposable.id)]
    {
      enumerator.Dispose();
      asyncDisposable.Dispose();
    }
  }

  /** `AutoDisposingAsyncEnumerable<T>`: two readonly references. */
  datatype AutoDisposingAsyncEnumerable<T> = AutoDisposingAsyncEnumerable(source: Source<T>, asyncDisposable: Context)

  /** The constructor: a null source, then a null `dbSet` (the disposable), is rejected;
      enumeration does not start. */
  function Make<T>(source: Option<Source<T>>, dbSet: Option<Context>): (r: Result<AutoDisposingAsyncEnumerable<T>>)
    ensures r.Ok? <==> source.Some? && dbSet.Some?
    ensures source.None? ==> r == Fail(ArgumentNull("source"))
    ensures source.Some? && dbSet.None? ==> r == Fail(ArgumentNull("dbSet"))
    ensures r.Ok? ==> r.value.source == source.value && r.value.asyncDisposable == dbSet.value
  {
    if source.None? then Fail(ArgumentNull("source"))
    else if dbSet.None? then Fail(ArgumentNull("dbSet"))
    else Ok(AutoDisposingAsyncEnumerable(source.value, dbSet.value))
  }

  /** `GetAsyncEnumerator`: a fresh wrapper over the same source and disposable; the token is
      not used. */
  method GetAsyncEnumerator<T>(e: AutoDisposingAsyncEnumerable<T>, cancellationToken: CancellationToken) returns (it: AutoDisposingAsyncEnumerator<T>)
    requires e.source.log == e.asyncDisposable.log
    modifies e.source.log
    ensures fresh(it) && fresh(it.enumerator) && it.Valid()
    ensures it.enumerator.items == e.source.items && it.enumerator.position == 0
    ensures it.enumerator.id == |old(e.source.log.events)|
    ensures it.asyncDisposable == e.asyncDisposable && unchanged(e.asyncDisposable)
    ensures e.source.log.events == old(e.source.log.events) + [EnumeratorOpened(e.source.id)]
  {
    var r := AutoDisposingAsyncEnumerator.Create(Some(e.source), Some(e.asyncDisposable));
    it := r.value;
  }

  /** A caller's `await foreach`: it sees exactly the source's elements in order, and the
      context is disposed once, after the inner enumerator, whatever the token. */
  method AwaitForEach<T>(e: AutoDisposingAsyncEnumerable<T>, cancellationToken: CancellationToken) returns (xs: seq<T>)
    requires e.source.log == e.asyncDisposable.log
    modifies e.asyncDisposable, e.source.log
    ensures xs == e.source.items
    ensures e.asyncDisposable.disposeCount == old(e.asyncDisposable.disposeCount) + 1
    ensures e.source.log.events == old(e.source.log.events) +
      [EnumeratorOpened(e.source.id), EnumeratorDisposed(|old(e.source.log.events)|), ContextDisposed(e.asyncDisposable.id)]
  {
    var it := GetAsyncEnumerator(e, cancellationToken);
    var afterOpen := e.source.log.events;
    xs := [];
    var more := it.MoveNextAsync();
    while more
      invariant it.Valid() && 1 <= it.enumerator.position
      invariant more <==> it.enumerator.position <= |e.source.items|
      invariant xs == e.source.items[..it.enumerator.position - 1]
      invariant e.source.log.events == afterOpen
      invariant e.asyncDisposable.disposeCount == old(e.asyncDisposable.disposeCount)
      decreases |e.source.items| + 1 - it.enumerator.position
    {
      xs := xs + [it.Current().value];
      more := it.MoveNextAsync();
    }
    it.DisposeAsync();
  }
}
