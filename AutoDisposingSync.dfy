/** `AutoDisposingEnumerator<T>` and `AutoDisposingEnumerable<T>`: an enumeration of a query
    result that owns the database context the result came from and releases it when the
    enumerator is disposed. */
module AutoDisposingSync {
  import opened Errors
  import opened Runtime

  class AutoDisposingEnumerator<T> {
    const enumerator: Cursor<T>
    const disposable: Context

    /** Stores the two fields; `Create` is the C# constructor with its checks. */
    constructor (enumerator: Cursor<T>, disposable: Context)
      ensures this.enumerator == enumerator && this.disposable == disposable
    {
      this.enumerator := enumerator;
      this.disposable := disposable;
    }

    /** The inner cursor is well formed and its events go to the context's log. */
    predicate Valid()
      reads enumerator
    {
      enumerator.Valid() && enumerator.log == disposable.log
    }

    /** The constructor: a null source is rejected before anything happens; the source is then
        enumerated, and only after that is a null disposable rejected. */
    static method Create(source: Option<Source<T>>, disposable: Option<Context>) returns (r: Result<AutoDisposingEnumerator<T>>)
      requires source.Some? && disposable.Some? ==> source.value.log == disposable.value.log
      modifies if source.Some? then {source.value.log} else {}
      ensures source.None? ==> r == Fail(ArgumentNull("source"))
      ensures source.Some? ==>
        source.value.log.events == old(source.value.log.events) + [EnumeratorOpened(source.value.id)]
      ensures source.Some? && disposable.None? ==> r == Fail(ArgumentNull("disposable"))
      ensures source.Some? && disposable.Some? ==>
        r.Ok? && fresh(r.value) && fresh(r.value.enumerator) && r.value.Valid() &&
        r.value.enumerator.items == source.value.items && r.value.enumerator.position == 0 &&
        r.value.disposable == disposable.value &&
        r.value.enumerator.id == |old(source.value.log.events)|
    {
      if source.None? {
        return Fail(ArgumentNull("source"));
      }
      var inner := source.value.GetEnumerator();
      if disposable.None? {
        return Fail(ArgumentNull("disposable"));
      }
      var e := new AutoDisposingEnumerator(inner, disposable.value);
      return Ok(e);
    }

    /** `Current` is the inner cursor's: the element under it while on the source,
        the default value (`None`) before the first element and past the end. */
    function Current(): (r: Option<T>)
      reads enumerator
      ensures r.Some? <==> 1 <= enumerator.position <= |enumerator.items|
      ensures r.Some? ==> r.value == enumerator.items[enumerator.position - 1]
    {
      enumerator.Current()
    }

    /** `MoveNext` is the inner cursor's and leaves the context alone, even at the end. */
    method MoveNext() returns (more: bool)
      requires Valid()
      modifies enumerator
      ensures Valid()
      ensures enumerator.position ==
        if old(enumerator.position) <= |enumerator.items| then old(enumerator.position) + 1 else old(enumerator.position)
      ensures more <==> enumerator.position <= |enumerator.items|
      ensures enumerator.disposeCount == old(enumerator.disposeCount)
      ensures unchanged(disposable) && unchanged(disposable.log)
    {
      more := enumerator.MoveNext();
    }

    /** `Reset` is the inner cursor's and leaves the context alone. */
    method Reset()
      requires Valid()
      modifies enumerator
      ensures Valid() && enumerator.position == 0
      ensures enumerator.disposeCount == old(enumerator.disposeCount)
      ensures unchanged(disposable) && unchanged(disposable.log)
    {
      enumerator.Reset();
    }

    /** `Dispose`: the inner cursor first, then the context. There is no disposed flag, so each
        call forwards to both. */
    method Dispose()
      requires Valid()
      modifies enumerator, disposable, disposable.log
      ensures Valid() && enumerator.position == old(enumerator.position)
      ensures enumerator.disposeCount == old(enumerator.disposeCount) + 1
      ensures disposable.disposeCount == old(disposable.disposeCount) + 1
      ensures disposable.tracking == old(disposable.tracking)
      ensures disposable.log.events ==
        old(disposable.log.events) + [EnumeratorDisposed(enumerator.id), ContextDisposed(disposable.id)]
    {
      enumerator.Dispose();
      disposable.Dispose();
    }
  }

  /** `AutoDisposingEnumerable<T>`: two readonly references. */
  datatype AutoDisposingEnumerable<T> = AutoDisposingEnumerable(source: Source<T>, disposable: Context)

  /** The constructor: a null source, then a null disposable, is rejected; nothing is
      enumerated or disposed. */
  function Make<T>(source: Option<Source<T>>, disposable: Option<Context>): (r: Result<AutoDisposingEnumerable<T>>)
    ensures r.Ok? <==> source.Some? && disposable.Some?
    ensures source.None? ==> r == Fail(ArgumentNull("source"))
    ensures source.Some? && disposable.None? ==> r == Fail(ArgumentNull("disposable"))
    ensures r.Ok? ==> r.value.source == source.value && r.value.disposable == disposable.value
  {
    if source.None? then Fail(ArgumentNull("source"))
    else if disposable.None? then Fail(ArgumentNull("disposable"))
    else Ok(AutoDisposingEnumerable(source.value, disposable.value))
  }

  /** `GetEnumerator` (and the non-generic one, which forwards to it): a fresh enumerator over
      the stored source, sharing the one context. */
  method GetEnumerator<T>(e: AutoDisposingEnumerable<T>) returns (it: AutoDisposingEnumerator<T>)
    requires e.source.log == e.disposable.log
    modifies e.source.log
    ensures fresh(it) && fresh(it.enumerator) && it.Valid()
    ensures it.enumerator.items == e.source.items && it.enumerator.position == 0
    ensures it.enumerator.id == |old(e.source.log.events)|
    ensures it.disposable == e.disposable && unchanged(e.disposable)
    ensures e.source.log.events == old(e.source.log.events) + [EnumeratorOpened(e.source.id)]
  {
    var r := AutoDisposingEnumerator.Create(Some(e.source), Some(e.disposable));
    it := r.value;
  }

  /** A caller's `foreach` over the wrapper: `GetEnumerator`, `MoveNext`/`Current` until
      false, then `Dispose`. It sees exactly the source's elements in order, and the context
      is disposed once, after the inner cursor. */
  method ForEach<T>(e: AutoDisposingEnumerable<T>) returns (xs: seq<T>)
    requires e.source.log == e.disposable.log
    modifies e.disposable, e.source.log
    ensures xs == e.source.items
    ensures e.disposable.disposeCount == old(e.disposable.disposeCount) + 1
    ensures e.disposable.tracking == old(e.disposable.tracking)
    ensures e.source.log.events == old(e.source.log.events) +
      [EnumeratorOpened(e.source.id), EnumeratorDisposed(|old(e.source.log.events)|), ContextDisposed(e.disposable.id)]
  {
    var it := GetEnumerator(e);
    var afterOpen := e.source.log.events;
    xs := [];
    var more := it.MoveNext();
    while more
      invariant it.Valid() && 1 <= it.enumerator.position
      invariant more <==> it.enumerator.position <= |e.source.items|
      invariant xs == e.source.items[..it.enumerator.position - 1]
      invariant e.source.log.events == afterOpen
      invariant e.disposable.disposeCount == old(e.disposable.disposeCount)
      invariant e.disposable.tracking == old(e.disposable.tracking)
      decreases |e.source.items| + 1 - it.enumerator.position
    {
      xs := xs + [it.Current().value];
      more := it.MoveNext();
    }
    it.Dispose();
  }
}
