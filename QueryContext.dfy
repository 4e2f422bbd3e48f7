/** `DbContextFactoryQueryContext<TContext, TEntity>` (current revision): each query gets a
    fresh context from the factory. The query is rebound onto that context's entity set and
    executed there. Sequence results are wrapped so that the context is disposed when their
    enumeration ends, and task results so that it is disposed after the await. Any other result,
    and any failure, disposes the context before returning. */
module QueryContext {
  import opened Errors
  import opened Expressions
  import opened Runtime
  import opened SharedTypes
  import opened ClrTypes
  import opened Collaborators
  import QueryRootReplace
  import AutoDisposingSync
  import AutoDisposingAsync

  /** What `Execute`/`ExecuteAsync` hand back as `TResult`. */
  datatype ExecuteResult =
    | AutoDisposing(enumerable: AutoDisposingSync.AutoDisposingEnumerable<Value>, elementType: Type)
    | AsyncAutoDisposing(asyncEnumerable: AutoDisposingAsync.AutoDisposingAsyncEnumerable<Value>, elementType: Type)
    | DisposeAfterAwait(task: TaskState, context: Context, elementType: Type)
    | Unwrapped(payload: Payload)

  /** The context is released before the call returns: on every failure and for every
      result that is handed back unwrapped. */
  predicate DisposesNow(r: Result<ExecuteResult>) {
    r.Fail? || r.value.Unwrapped?
  }

  /** `DisposeAfterEnumeration` without the disposal, with `MakeAutoDisposing<TResult>` for
      sequences: the reflective `Invoke` needs the result to be an `IEnumerable<elem>`, and the
      wrapper must cast back to `TResult`. */
  function AfterEnumeration(result: Payload, resultType: Type, context: Context): (r: Result<ExecuteResult>)
    ensures !result.Sequence? ==> r == Ok(Unwrapped(result))
    ensures result.Sequence? ==>
      var elem := SequenceElementType(resultType);
      (r.Ok? <==> ConvertibleToSequenceOf(result.runtimeType, IEnumerableDefinition, elem) &&
                  CastSucceeds(AutoDisposingEnumerableOf(elem), resultType)) &&
      (!ConvertibleToSequenceOf(result.runtimeType, IEnumerableDefinition, elem) ==> r == Fail(Argument("", ParameterMismatch))) &&
      ((ConvertibleToSequenceOf(result.runtimeType, IEnumerableDefinition, elem) && !CastSucceeds(AutoDisposingEnumerableOf(elem), resultType)) ==>
         r == Fail(InvalidCast)) &&
      (r.Ok? ==> r.value.AutoDisposing? && r.value.elementType == elem &&
                 r.value.enumerable.source == result.source && r.value.enumerable.disposable == context)
    ensures r.Fail? ==> r.error in {Argument("", ParameterMismatch), InvalidCast}
  {
    match result
    case Sequence(runtimeType, source) =>
      var elem := SequenceElementType(resultType);
      if !ConvertibleToSequenceOf(runtimeType, IEnumerableDefinition, elem) then Fail(Argument("", ParameterMismatch))
      else if !CastSucceeds(AutoDisposingEnumerableOf(elem), resultType) then Fail(InvalidCast)
      else
        var wrapped := AutoDisposingSync.Make(Some(source), Some(context));
        Ok(AutoDisposing(wrapped.value, elem))
    case _ => Ok(Unwrapped(result))
  }

  /** `DisposeAfterEnumerationAsync`: sequences are wrapped for asynchronous enumeration
      (the `IEnumerable` test comes first), `Task`s are wrapped in `DisposeAfterAwait<elem>`,
      whose parameter is a `Task<elem>`; anything else is handed back. */
  function AfterEnumerationAsync(result: Payload, resultType: Type, context: Context): (r: Result<ExecuteResult>)
    ensures result.Plain? ==> r == Ok(Unwrapped(result))
    ensures result.Sequence? ==>
      var elem := SequenceElementType(resultType);
      (r.Ok? <==> ConvertibleToSequenceOf(result.runtimeType, IAsyncEnumerableDefinition, elem) &&
                  CastSucceeds(AutoDisposingAsyncEnumerableOf(elem), resultType)) &&
      (!ConvertibleToSequenceOf(result.runtimeType, IAsyncEnumerableDefinition, elem) ==> r == Fail(Argument("", ParameterMismatch))) &&
      ((ConvertibleToSequenceOf(result.runtimeType, IAsyncEnumerableDefinition, elem) && !CastSucceeds(AutoDisposingAsyncEnumerableOf(elem), resultType)) ==>
         r == Fail(InvalidCast)) &&
      (r.Ok? ==> r.value.AsyncAutoDisposing? && r.value.elementType == elem &&
                 r.value.asyncEnumerable.source == result.source && r.value.asyncEnumerable.asyncDisposable == context)
    ensures result.TaskResult? ==>
      var elem := TaskElementType(resultType);
      (r.Ok? <==> ReferenceConvertible(result.runtimeType, TaskOf(elem)) && CastSucceeds(TaskOf(elem), resultType)) &&
      (!ReferenceConvertible(result.runtimeType, TaskOf(elem)) ==> r == Fail(Argument("", ParameterMismatch))) &&
      (ReferenceConvertible(result.runtimeType, TaskOf(elem)) && !CastSucceeds(TaskOf(elem), resultType) ==> r == Fail(InvalidCast)) &&
      (r.Ok? ==> r.value == DisposeAfterAwait(result.state, context, elem))
    ensures r.Fail? ==> r.error in {Argument("", ParameterMismatch), InvalidCast}
  {
    match result
    case Sequence(runtimeType, source) =>
      var elem := SequenceElementType(resultType);
      if !ConvertibleToSequenceOf(runtimeType, IAsyncEnumerableDefinition, elem) then Fail(Argument("", ParameterMismatch))
      else if !CastSucceeds(AutoDisposingAsyncEnumerableOf(elem), resultType) then Fail(InvalidCast)
      else
        var wrapped := AutoDisposingAsync.Make(Some(source), Some(context));
        Ok(AsyncAutoDisposing(wrapped.value, elem))
    case TaskResult(runtimeType, state) =>
      var elem := TaskElementType(resultType);
      if !ReferenceConvertible(runtimeType, TaskOf(elem)) then Fail(Argument("", ParameterMismatch))
      else if !CastSucceeds(TaskOf(elem), resultType) then Fail(InvalidCast)
      else Ok(DisposeAfterAwait(state, context, elem))
    case Plain(_) => Ok(Unwrapped(result))
  }

  class DbContextFactoryQueryContext {
    const factory: ContextFactory
    /** `TEntity`. */
    const entityType: EntityType

    constructor (factory: ContextFactory, entityType: EntityType)
      ensures this.factory == factory && this.entityType == entityType
    {
      this.factory := factory;
      this.entityType := entityType;
    }

    /** The C# constructor: a null factory is rejected. */
    static method Create(factory: Option<ContextFactory>, entityType: EntityType) returns (r: Result<DbContextFactoryQueryContext>)
      ensures factory.None? ==> r == Fail(ArgumentNull("factory"))
      ensures factory.Some? ==> r.Ok? && fresh(r.value) && r.value.factory == factory.value && r.value.entityType == entityType
    {
      if factory.None? {
        return Fail(ArgumentNull("factory"));
      }
      var c := new DbContextFactoryQueryContext(factory.value, entityType);
      return Ok(c);
    }

    /** `context.Set<TEntity>()`: the entity set of that context, served by its own provider. */
    function EntitySet(context: Context): DbSet {
      DbSet(entityType, context.provider)
    }

    /** What the `try` block of `Execute` computes once the context exists: rebind, execute
        without tracking, classify the result. */
    function ExecuteSteps(query: Expr, resultType: Type, context: Context): Result<ExecuteResult> {
      var replaced :- QueryRootReplace.ReplaceProviderResult(Some(query), Some(EntitySet(context)), Some(context.provider));
      var result :- factory.execute(context.provider, NoTracking, replaced, resultType);
      AfterEnumeration(result, resultType, context)
    }

    /** What the `try` block of `ExecuteAsync` computes: a provider that is not asynchronous is
        rejected before the query is looked at. */
    function ExecuteAsyncSteps(query: Expr, resultType: Type, cancellationToken: CancellationToken, context: Context): Result<ExecuteResult> {
      if !context.provider.isAsync then Fail(InvalidOperation(NonAsyncProvider))
      else
        var replaced :- QueryRootReplace.ReplaceProviderResult(Some(query), Some(EntitySet(context)), Some(context.provider));
        var result :- factory.executeAsync(context.provider, NoTracking, replaced, resultType, cancellationToken);
        AfterEnumerationAsync(result, resultType, context)
    }

    /** `Execute` runs exactly the rebound query on the given context: every root of `query`
        replaced by the root of that context's own set, executed without tracking by that
        context's own provider. A query without a root never reaches a provider. */
    lemma ExecuteRunsReboundQuery(query: Expr, resultType: Type, context: Context)
      ensures !ContainsRoot(query) ==> ExecuteSteps(query, resultType, context) == Fail(Argument("query", NotFromEntityFramework))
      ensures ContainsRoot(query) ==>
        var rebound := QueryRootReplace.ReplaceAll(query, QueryRootReplace.SetQueryRoot(EntitySet(context), context.provider));
        ExecuteSteps(query, resultType, context) ==
          match factory.execute(context.provider, NoTracking, rebound, resultType)
          case Fail(e) => Fail(e)
          case Ok(result) => AfterEnumeration(result, resultType, context)
    {
      var root := QueryRootReplace.SetQueryRoot(EntitySet(context), context.provider);
      var replaced := QueryRootReplace.ReplaceProviderResult(Some(query), Some(EntitySet(context)), Some(context.provider));
      if replaced.Ok? {
        QueryRootReplace.ReplaceAllUnique(query, replaced.value, root);
      }
    }

    /** `ExecuteAsync` on a provider that is not asynchronous fails the same way whatever the
        query, even one the rebinding would reject; on an asynchronous provider it runs the
        rebound query with the caller's token. */
    lemma ExecuteAsyncRunsReboundQuery(query: Expr, resultType: Type, cancellationToken: CancellationToken, context: Context)
      ensures !context.provider.isAsync ==>
        ExecuteAsyncSteps(query, resultType, cancellationToken, context) == Fail(InvalidOperation(NonAsyncProvider))
      ensures context.provider.isAsync && !ContainsRoot(query) ==>
        ExecuteAsyncSteps(query, resultType, cancellationToken, context) == Fail(Argument("query", NotFromEntityFramework))
      ensures context.provider.isAsync && ContainsRoot(query) ==>
        var rebound := QueryRootReplace.ReplaceAll(query, QueryRootReplace.SetQueryRoot(EntitySet(context), context.provider));
        ExecuteAsyncSteps(query, resultType, cancellationToken, context) ==
          match factory.executeAsync(context.provider, NoTracking, rebound, resultType, cancellationToken)
          case Fail(e) => Fail(e)
          case Ok(result) => AfterEnumerationAsync(result, resultType, context)
    {
      var root := QueryRootReplace.SetQueryRoot(EntitySet(context), context.provider);
      var replaced := QueryRootReplace.ReplaceProviderResult(Some(query), Some(EntitySet(context)), Some(context.provider));
      if replaced.Ok? {
        QueryRootReplace.ReplaceAllUnique(query, replaced.value, root);
      }
    }

    /** `DisposeAfterEnumeration`: a sequence is wrapped, which may throw; anything else
        disposes the context and is handed back. */
    static method DisposeAfterEnumeration(result: Payload, resultType: Type, context: Context) returns (r: Result<ExecuteResult>)
      modifies context, context.log
      ensures r == AfterEnumeration(result, resultType, context)
      ensures context.tracking == old(context.tracking)
      ensures context.disposeCount == old(context.disposeCount) + (if result.Sequence? then 0 else 1)
      ensures context.log.events == old(context.log.events) + (if result.Sequence? then [] else [ContextDisposed(context.id)])
    {
      if result.Sequence? {
        return AfterEnumeration(result, resultType, context);
      }
      context.Dispose();
      return Ok(Unwrapped(result));
    }

    /** `DisposeAfterEnumerationAsync`: sequences and tasks are wrapped, anything else disposes
        the context. */
    static method DisposeAfterEnumerationAsync(result: Payload, resultType: Type, context: Context) returns (r: Result<ExecuteResult>)
      modifies context, context.log
      ensures r == AfterEnumerationAsync(result, resultType, context)
      ensures context.tracking == old(context.tracking)
      ensures context.disposeCount == old(context.disposeCount) + (if result.Plain? then 1 else 0)
      ensures context.log.events == old(context.log.events) + (if result.Plain? then [ContextDisposed(context.id)] else [])
    {
      if !result.Plain? {
        return AfterEnumerationAsync(result, resultType, context);
      }
      context.Dispose();
      return Ok(Unwrapped(result));
    }

    /** `Execute<TResult>`: a null query is rejected before a context is created. Otherwise
        exactly one context is created; if creation itself fails, that exception escapes. The
        new context is switched to no-tracking before the query runs. It is disposed exactly
        once before returning when the call fails or the result is not wrapped, and left to the
        wrapper otherwise. */
    method Execute(query: Option<Expr>, resultType: Type) returns (r: Result<ExecuteResult>, ghost context: Option<Context>)
      modifies factory, factory.log
      ensures query.None? ==>
        r == Fail(ArgumentNull("query")) && context.None? &&
        factory.created == old(factory.created) && factory.log.events == old(factory.log.events)
      ensures query.Some? ==> factory.created == old(factory.created) + 1
      ensures query.Some? && factory.creationFault(old(factory.created)).Some? ==>
        r == Fail(factory.creationFault(old(factory.created)).value) && context.None? &&
        factory.log.events == old(factory.log.events)
      ensures query.Some? && factory.creationFault(old(factory.created)).None? ==>
        context.Some? && fresh(context.value) && context.value.id == old(factory.created) &&
        context.value.log == factory.log && context.value.provider == factory.providerOf(old(factory.created)) &&
        context.value.tracking == NoTracking &&
        r == ExecuteSteps(query.value, resultType, context.value) &&
        context.value.disposeCount == (if DisposesNow(r) then 1 else 0) &&
        factory.log.events == old(factory.log.events) + (if DisposesNow(r) then [ContextDisposed(context.value.id)] else [])
    {
      context := None;
      if query.None? {
        return Fail(ArgumentNull("query")), context;
      }
      var created := factory.CreateDbContext();
      if created.Fail? {
        return Fail(created.error), context;
      }
      var ctx := created.value;
      context := Some(ctx);
      ctx.tracking := NoTracking;
      var entitySet := EntitySet(ctx);
      var provider := entitySet.provider;
      var replaced := QueryRootReplace.ReplaceProvider(query, Some(entitySet), Some(provider));
      if replaced.Fail? {
        ctx.Dispose();
        return Fail(replaced.error), context;
      }
      var result := factory.execute(provider, ctx.tracking, replaced.value, resultType);
      if result.Fail? {
        ctx.Dispose();
        return Fail(result.error), context;
      }
      r := DisposeAfterEnumeration(result.value, resultType, ctx);
      if r.Fail? {
        ctx.Dispose();
      }
    }

    /** `ExecuteAsync<TResult>`: as `Execute`, with the provider's asynchronous entry point; the
        cancellation token goes to the provider. */
    method ExecuteAsync(query: Option<Expr>, resultType: Type, cancellationToken: CancellationToken)
      returns (r: Result<ExecuteResult>, ghost context: Option<Context>)
      modifies factory, factory.log
      ensures query.None? ==>
        r == Fail(ArgumentNull("query")) && context.None? &&
        factory.created == old(factory.created) && factory.log.events == old(factory.log.events)
      ensures query.Some? ==> factory.created == old(factory.created) + 1
      ensures query.Some? && factory.creationFault(old(factory.created)).Some? ==>
        r == Fail(factory.creationFault(old(factory.created)).value) && context.None? &&
        factory.log.events == old(factory.log.events)
      ensures query.Some? && factory.creationFault(old(factory.created)).None? ==>
        context.Some? && fresh(context.value) && context.value.id == old(factory.created) &&
        context.value.log == factory.log && context.value.provider == factory.providerOf(old(factory.created)) &&
        context.value.tracking == NoTracking &&
        r == ExecuteAsyncSteps(query.value, resultType, cancellationToken, context.value) &&
        context.value.disposeCount == (if DisposesNow(r) then 1 else 0) &&
        factory.log.events == old(factory.log.events) + (if DisposesNow(r) then [ContextDisposed(context.value.id)] else [])
    {
      context := None;
      if query.None? {
        return Fail(ArgumentNull("query")), context;
      }
      var created := factory.CreateDbContext();
      if created.Fail? {
        return Fail(created.error), context;
      }
      var ctx := created.value;
      context := Some(ctx);
      ctx.tracking := NoTracking;
      var entitySet := EntitySet(ctx);
      var provider := entitySet.provider;
      if !provider.isAsync {
        ctx.Dispose();
        return Fail(InvalidOperation(NonAsyncProvider)), context;
      }
      var replaced := QueryRootReplace.ReplaceProvider(query, Some(entitySet), Some(provider));
      if replaced.Fail? {
        ctx.Dispose();
        return Fail(replaced.error), context;
      }
      var result := factory.executeAsync(provider, ctx.tracking, replaced.value, resultType, cancellationToken);
      if result.Fail? {
        ctx.Dispose();
        return Fail(result.error), context;
      }
      r := DisposeAfterEnumerationAsync(result.value, resultType, ctx);
      if r.Fail? {
        ctx.Dispose();
      }
    }
  }

  /** Awaiting the task `DisposeAfterAwait` returns: the inner task is awaited first; only when
      it completes is the context disposed and the value handed on. A faulted or cancelled
      task rethrows and leaves the context alone. */
  method AwaitDisposeAfterAwait(r: ExecuteResult) returns (v: Result<Value>)
    requires r.DisposeAfterAwait?
    modifies r.context, r.context.log
    ensures r.task.TaskCompleted? ==>
      v == Ok(r.task.result) && r.context.disposeCount == old(r.context.disposeCount) + 1 &&
      r.context.log.events == old(r.context.log.events) + [ContextDisposed(r.context.id)]
    ensures r.task.TaskFaulted? ==> v == Fail(r.task.error)
    ensures r.task.TaskCanceled? ==> v == Fail(OperationCanceled)
    ensures !r.task.TaskCompleted? ==> unchanged(r.context) && unchanged(r.context.log)
  {
    match r.task
    case TaskCompleted(value) =>
      r.context.Dispose();
      return Ok(value);
    case TaskFaulted(error) =>
      return Fail(error);
    case TaskCanceled =>
      return Fail(OperationCanceled);
  }

  /** A sequence result of `IEnumerable<x>` that really is one is wrapped with element type
      `x`; the wrapper owns the context. */
  lemma EnumerableResultIsWrapped(runtimeType: Type, source: Source<Value>, x: Type, context: Context)
    requires EnumerableOf(x) in runtimeType.interfaces
    ensures AfterEnumeration(Sequence(runtimeType, source), EnumerableOf(x), context) ==
      Ok(AutoDisposing(AutoDisposingSync.AutoDisposingEnumerable(source, context), x))
  {
    assert ReferenceConvertible(x, x);
    assert EnumerableOf(x) in AutoDisposingEnumerableOf(x).interfaces;
  }

  /** A scalar `string` result (a `First()` over a projection to strings, say) is a sequence
      of `char`, so it is taken for a sequence. Its element type falls back to `object`, and
      `IEnumerable<char>` does not convert to `IEnumerable<object>`: the wrapping fails. */
  lemma StringResultIsNotWrapped(source: Source<Value>, context: Context)
    ensures AfterEnumeration(Sequence(StringClass, source), StringClass, context) == Fail(Argument("", ParameterMismatch))
  {
    SequenceVariance(ObjectType);
  }

  /** An asynchronous sequence of `x` is wrapped for asynchronous enumeration with element
      type `x`. */
  lemma AsyncEnumerableResultIsWrapped(runtimeType: Type, source: Source<Value>, x: Type, context: Context)
    requires AsyncEnumerableOf(x) in runtimeType.interfaces
    ensures AfterEnumerationAsync(Sequence(runtimeType, source), AsyncEnumerableOf(x), context) ==
      Ok(AsyncAutoDisposing(AutoDisposingAsync.AutoDisposingAsyncEnumerable(source, context), x))
  {
    assert ReferenceConvertible(x, x);
    assert AsyncEnumerableOf(x) in AutoDisposingAsyncEnumerableOf(x).interfaces;
  }

  /** A `Task<x>` result becomes the dispose-after-await task over the same task state. When
      `TResult` is the non-generic `Task`, the element type falls back to `object`, and since
      `Task<>` is invariant only a `Task<object>` can then be wrapped. */
  lemma TaskResultIsWrapped(x: Type, state: TaskState, context: Context)
    ensures AfterEnumerationAsync(TaskResult(TaskOf(x), state), TaskOf(x), context) == Ok(DisposeAfterAwait(state, context, x))
    ensures AfterEnumerationAsync(TaskResult(TaskOf(x), state), TaskType, context).Fail? <==> TaskOf(x) != TaskOf(ObjectType)
  {
    assert TaskType in BaseChain(TaskOf(ObjectType));
  }

  /** A caller's `foreach` over what `Execute` returns. Whatever happens once a context exists,
      it is disposed exactly once by the end: at once on failure or for an unwrapped result,
      by the wrapper's `Dispose` after the last element otherwise. The elements seen are the
      provider's sequence, in order. */
  method ExecuteAndEnumerate(queryContext: DbContextFactoryQueryContext, query: Option<Expr>, resultType: Type)
    returns (r: Result<Option<seq<Value>>>, ghost context: Option<Context>)
    requires queryContext.factory.Valid()
    modifies queryContext.factory, queryContext.factory.log
    ensures context.Some? ==> context.value.disposeCount == 1
    ensures query.Some? && queryContext.factory.creationFault(old(queryContext.factory.created)).None? ==> context.Some?
    ensures query.Some? && context.Some? ==>
      var executed := queryContext.ExecuteSteps(query.value, resultType, context.value);
      (executed.Fail? ==> r == Fail(executed.error)) &&
      (executed.Ok? && executed.value.Unwrapped? ==> r == Ok(None)) &&
      (executed.Ok? && executed.value.AutoDisposing? ==> r == Ok(Some(executed.value.enumerable.source.items)))
  {
    var executed;
    executed, context := queryContext.Execute(query, resultType);
    if executed.Fail? {
      return Fail(executed.error), context;
    }
    match executed.value
    case AutoDisposing(enumerable, _) =>
      var xs := AutoDisposingSync.ForEach(enumerable);
      return Ok(Some(xs)), context;
    case _ =>
      return Ok(None), context;
  }
}
