/** `DbContextFactoryQueryContext<TEntity>` (historical revision). `Execute` runs the query in a
    `using` block: the result is buffered into a list while the context is alive, and the
    context is disposed on every exit. The query is rebound by rewriting its top node only.
    `ExecuteAsync` hands sequence results, with the context, to a buffering wrapper. */
module LegacyQueryContext {
  import opened Errors
  import opened Expressions
  import opened Runtime
  import opened SharedTypes
  import opened ClrTypes
  import opened Collaborators
  import QueryRootReplace

  /** What the historical entry points hand back as `TResult`: a list built by `Buffer`, a
      sequence handed with its context to the asynchronous `Buffer` helper, or the provider's
      result as it is. */
  datatype LegacyResult =
    | Listed(listType: Type, items: seq<Value>)
    | HandedToBuffer(runtimeType: Type, source: Source<Value>, context: Context)
    | Returned(payload: Payload)

  /** The historical `ReplaceProvider`: a method call gets the new root as its first argument
      and keeps the rest; a root becomes the new root; any other node is rejected. Null is not
      checked: formatting the exception message reads `query.Type`. Rebuilding a call with no
      argument fails, since the call would then get one argument too many. */
  function ReplaceProviderResult(query: Option<Expr>, dbSet: DbSet, provider: Provider): (r: Result<Expr>)
    ensures query.None? ==> r == Fail(NullReference)
    ensures query.Some? && query.value.Root? ==> r == Ok(Root(QueryRootReplace.SetQueryRoot(dbSet, provider)))
    ensures query.Some? && query.value.Other? ==> r == Fail(Argument("query", UnsupportedExpression))
    ensures query.Some? && query.value.Call? && query.value.args == [] ==> r == Fail(Argument("method", ArgumentCount))
    ensures query.Some? && query.value.Call? && query.value.args != [] ==>
      r.Ok? && r.value.Call? && r.value.name == query.value.name &&
      |r.value.args| == |query.value.args| &&
      r.value.args[0] == Root(QueryRootReplace.SetQueryRoot(dbSet, provider)) &&
      r.value.args[1..] == query.value.args[1..]
  {
    var setQuery := QueryRootReplace.SetQueryRoot(dbSet, provider);
    if query.None? then Fail(NullReference)
    else
      match query.value
      case Call(m, args) =>
        if args == [] then Fail(Argument("method", ArgumentCount))
        else Ok(Call(m, [Root(setQuery)] + args[1..]))
      case Root(_) => Ok(Root(setQuery))
      case Other(_, _) => Fail(Argument("query", UnsupportedExpression))
  }

  /** On a query that is one operator applied directly to a root, with no other root in its
      arguments, the first-argument rewrite gives what the visitor-based rebinding gives. */
  lemma FirstArgumentRewriteAgreesOnSingleOperator(m: string, source: QueryRoot, rest: seq<Expr>, dbSet: DbSet, provider: Provider)
    requires forall i :: 0 <= i < |rest| ==> !ContainsRoot(rest[i])
    ensures ReplaceProviderResult(Some(Call(m, [Root(source)] + rest)), dbSet, provider) ==
            QueryRootReplace.ReplaceProviderResult(Some(Call(m, [Root(source)] + rest)), Some(dbSet), Some(provider))
  {
    var q := Call(m, [Root(source)] + rest);
    var root := QueryRootReplace.SetQueryRoot(dbSet, provider);
    assert ContainsRoot(q.args[0]);
    var current := QueryRootReplace.ReplaceProviderResult(Some(q), Some(dbSet), Some(provider));
    QueryRootReplace.ReplaceAllUnique(q, current.value, root);
    forall i | 0 <= i < |rest|
      ensures QueryRootReplace.ReplaceAll(rest[i], root) == rest[i]
    {
      QueryRootReplace.ReplaceAllWithoutRoots(rest[i], root);
    }
    var expected := Call(m, [Root(root)] + rest);
    var rebound := QueryRootReplace.ReplaceAll(q, root);
    assert |rebound.args| == |expected.args|;
    forall i | 0 <= i < |q.args|
      ensures rebound.args[i] == expected.args[i]
    {
      if i > 0 {
        assert q.args[i] == rest[i - 1];
      }
    }
    assert rebound == expected;
    assert ReplaceProviderResult(Some(q), dbSet, provider) == Ok(expected);
  }

  /** The first-argument rewrite loses every operator below the top one:
      `Count(Where(root, p))` becomes `Count(newRoot)`, while the visitor-based rebinding keeps
      the filter and rebinds the root beneath it. */
  lemma FirstArgumentRewriteDropsInnerOperators(source: QueryRoot, filter: Expr, dbSet: DbSet, provider: Provider)
    requires !ContainsRoot(filter)
    ensures ReplaceProviderResult(Some(Call("Count", [Call("Where", [Root(source), filter])])), dbSet, provider) ==
      Ok(Call("Count", [Root(QueryRootReplace.SetQueryRoot(dbSet, provider))]))
    ensures QueryRootReplace.ReplaceProviderResult(Some(Call("Count", [Call("Where", [Root(source), filter])])), Some(dbSet), Some(provider)) ==
      Ok(Call("Count", [Call("Where", [Root(QueryRootReplace.SetQueryRoot(dbSet, provider)), filter])]))
    ensures !AgreeOutsideRoots(Call("Count", [Call("Where", [Root(source), filter])]),
                               Call("Count", [Root(QueryRootReplace.SetQueryRoot(dbSet, provider))]))
  {
    var q := Call("Count", [Call("Where", [Root(source), filter])]);
    var root := QueryRootReplace.SetQueryRoot(dbSet, provider);
    var inner := Call("Where", [Root(source), filter]);
    assert ContainsRoot(inner.args[0]);
    assert ContainsRoot(q.args[0]);
    QueryRootReplace.ReplaceAllWithoutRoots(filter, root);
    var current := QueryRootReplace.ReplaceProviderResult(Some(q), Some(dbSet), Some(provider));
    QueryRootReplace.ReplaceAllUnique(q, current.value, root);
    var expectedInner := Call("Where", [Root(root), filter]);
    assert QueryRootReplace.ReplaceAll(inner, root) == expectedInner by {
      assert forall i :: 0 <= i < 2 ==> QueryRootReplace.ReplaceAll(inner, root).args[i] == expectedInner.args[i];
    }
    assert QueryRootReplace.ReplaceAll(q, root).args == [expectedInner];
    assert current.value == Call("Count", [expectedInner]);
    var legacy := Call("Count", [Root(root)]);
    assert [Root(root)] + q.args[1..] == legacy.args;
    assert !AgreeOutsideRoots(q.args[0], legacy.args[0]);
  }

  /** A materialisation is attempted: the result is a sequence whose runtime type has exactly
      one generic argument, and it converts to `IEnumerable<>` of that argument, so the
      reflective `ToList` is entered. */
  predicate Materialises(result: Payload) {
    result.Sequence? && |result.runtimeType.typeArgs| == 1 &&
    ConvertibleToSequenceOf(result.runtimeType, IEnumerableDefinition, result.runtimeType.typeArgs[0])
  }

  /** `Buffer`: a sequence whose runtime type has exactly one generic argument `a` becomes a
      `List<a>` of its elements, in order, cast to `TResult`; anything else is returned as is.
      An exception inside `ToList` reaches the caller wrapped by reflection. */
  function BufferResult(result: Payload, resultType: Type): (r: Result<LegacyResult>)
    ensures !result.Sequence? || |result.runtimeType.typeArgs| != 1 ==> r == Ok(Returned(result))
    ensures result.Sequence? && |result.runtimeType.typeArgs| == 1 ==>
      var a := result.runtimeType.typeArgs[0];
      (!Materialises(result) ==> r == Fail(Argument("", ParameterMismatch))) &&
      (Materialises(result) && result.source.failure.Some? ==> r == Fail(TargetInvocation(result.source.failure.value))) &&
      (r.Ok? <==> Materialises(result) && result.source.failure.None? && CastSucceeds(ListOf(a), resultType)) &&
      (r.Ok? ==> r.value == Listed(ListOf(a), result.source.items))
  {
    match result
    case Sequence(runtimeType, source) =>
      if |runtimeType.typeArgs| != 1 then Ok(Returned(result))
      else
        var a := runtimeType.typeArgs[0];
        if !ConvertibleToSequenceOf(runtimeType, IEnumerableDefinition, a) then Fail(Argument("", ParameterMismatch))
        else if source.failure.Some? then Fail(TargetInvocation(source.failure.value))
        else if !CastSucceeds(ListOf(a), resultType) then Fail(InvalidCast)
        else Ok(Listed(ListOf(a), source.items))
    case _ => Ok(Returned(result))
  }

  /** `BufferAsync`: a sequence goes to the asynchronous `Buffer` helper together with the
      context; anything else is returned unchanged, and in neither case is the context
      disposed here. */
  function BufferAsyncResult(result: Payload, context: Context): (r: LegacyResult)
    ensures result.Sequence? ==> r == HandedToBuffer(result.runtimeType, result.source, context)
    ensures !result.Sequence? ==> r == Returned(result)
  {
    if result.Sequence? then HandedToBuffer(result.runtimeType, result.source, context) else Returned(result)
  }

  /** `Buffer` as a step: the list is built by running the source to its end. */
  method Buffer(result: Payload, resultType: Type) returns (r: Result<LegacyResult>)
    modifies if result.Sequence? then {result.source.log} else {}
    ensures r == BufferResult(result, resultType)
    ensures Materialises(result) ==>
      result.source.log.events == old(result.source.log.events) + [SourceMaterialised(result.source.id)]
    ensures result.Sequence? && !Materialises(result) ==> result.source.log.events == old(result.source.log.events)
  {
    if !result.Sequence? || |result.runtimeType.typeArgs| != 1 {
      return Ok(Returned(result));
    }
    var a := result.runtimeType.typeArgs[0];
    if !ConvertibleToSequenceOf(result.runtimeType, IEnumerableDefinition, a) {
      return Fail(Argument("", ParameterMismatch));
    }
    var list := result.source.ToList();
    if list.Faulted? {
      return Fail(TargetInvocation(list.error));
    }
    if !CastSucceeds(ListOf(a), resultType) {
      return Fail(InvalidCast);
    }
    return Ok(Listed(ListOf(a), list.list));
  }

  class DbContextFactoryQueryContext {
    const factory: ContextFactory
    /** `TEntity`. */
    const entityType: EntityType

    constructor (factory: ContextFactory, entityType: EntityType)
      ensures this.factory == factory && this.entityType == entityType
    {
      this.factory := factory;
      this.entityType := entityType;
    }

    /** The C# constructor: a null factory is rejected. */
    static method Create(factory: Option<ContextFactory>, entityType: EntityType) returns (r: Result<DbContextFactoryQueryContext>)
      ensures factory.None? ==> r == Fail(ArgumentNull("factory"))
      ensures factory.Some? ==> r.Ok? && fresh(r.value) && r.value.factory == factory.value && r.value.entityType == entityType
    {
      if factory.None? {
        return Fail(ArgumentNull("factory"));
      }
      var c := new DbContextFactoryQueryContext(factory.value, entityType);
      return Ok(c);
    }

    /** `context.Set<TEntity>()`: the entity set of that context, served by its own provider. */
    function EntitySet(context: Context): DbSet {
      DbSet(entityType, context.provider)
    }

    /** Rebind, then execute without tracking. */
    function ExecuteSteps(query: Option<Expr>, resultType: Type, context: Context): Result<Payload> {
      var replaced :- ReplaceProviderResult(query, EntitySet(context), context.provider);
      factory.execute(context.provider, NoTracking, replaced, resultType)
    }

    /** What `ExecuteAsync` computes once the context exists. The provider is called without
        the caller's cancellation token, which does not occur here at all. */
    function ExecuteAsyncSteps(query: Option<Expr>, resultType: Type, context: Context): Result<LegacyResult> {
      if !context.provider.isAsync then Fail(InvalidOperation(NonAsyncProvider))
      else
        var replaced :- ReplaceProviderResult(query, EntitySet(context), context.provider);
        var result :- factory.executeAsync(context.provider, NoTracking, replaced, resultType, CancellationToken(false));
        Ok(BufferAsyncResult(result, context))
    }

    /** `Execute<TResult>`: one context per call, switched to no-tracking; the result is
        buffered while the context is alive, and the context is disposed exactly once on
        every exit, after the buffering. A null query is not rejected up front: it fails in
        the rewrite, after the context was created. */
    method Execute(query: Option<Expr>, resultType: Type) returns (r: Result<LegacyResult>, ghost context: Option<Context>)
      requires factory.Valid()
      modifies factory, factory.log
      ensures factory.created == old(factory.created) + 1
      ensures factory.creationFault(old(factory.created)).Some? ==>
        r == Fail(factory.creationFault(old(factory.created)).value) && context.None? &&
        factory.log.events == old(factory.log.events)
      ensures factory.creationFault(old(factory.created)).None? ==>
        context.Some? && fresh(context.value) && context.value.id == old(factory.created) &&
        context.value.log == factory.log && context.value.provider == factory.providerOf(old(factory.created)) &&
        context.value.tracking == NoTracking &&
        context.value.disposeCount == 1 &&
        var executed := ExecuteSteps(query, resultType, context.value);
        (executed.Fail? ==>
          r == Fail(executed.error) &&
          factory.log.events == old(factory.log.events) + [ContextDisposed(context.value.id)]) &&
        (executed.Ok? ==>
          r == BufferResult(executed.value, resultType) &&
          factory.log.events == old(factory.log.events) +
            (if Materialises(executed.value) then [SourceMaterialised(executed.value.source.id)] else []) +
            [ContextDisposed(context.value.id)])
    {
      context := None;
      var created := factory.CreateDbContext();
      if created.Fail? {
        return Fail(created.error), context;
      }
      var ctx := created.value;
      context := Some(ctx);
      ctx.tracking := NoTracking;
      var entitySet := EntitySet(ctx);
      var provider := entitySet.provider;
      var replaced := ReplaceProviderResult(query, entitySet, provider);
      if replaced.Fail? {
        ctx.Dispose();
        return Fail(replaced.error), context;
      }
      var result := factory.execute(provider, ctx.tracking, replaced.value, resultType);
      if result.Fail? {
        ctx.Dispose();
        return Fail(result.error), context;
      }
      r := Buffer(result.value, resultType);
      ctx.Dispose();
    }

    /** `ExecuteAsync<TResult>`: one context per call, switched to no-tracking, disposed once
        on failure and left undisposed on success, for a buffered sequence and a scalar result
        alike. The result does not depend on `cancellationToken`. */
    method ExecuteAsync(query: Option<Expr>, resultType: Type, cancellationToken: CancellationToken)
      returns (r: Result<LegacyResult>, ghost context: Option<Context>)
      modifies factory, factory.log
      ensures factory.created == old(factory.created) + 1
      ensures factory.creationFault(old(factory.created)).Some? ==>
        r == Fail(factory.creationFault(old(factory.created)).value) && context.None? &&
        factory.log.events == old(factory.log.events)
      ensures factory.creationFault(old(factory.created)).None? ==>
        context.Some? && fresh(context.value) && context.value.id == old(factory.created) &&
        context.value.log == factory.log && context.value.provider == factory.providerOf(old(factory.created)) &&
        context.value.tracking == NoTracking &&
        r == ExecuteAsyncSteps(query, resultType, context.value) &&
        context.value.disposeCount == (if r.Fail? then 1 else 0) &&
        factory.log.events == old(factory.log.events) + (if r.Fail? then [ContextDisposed(context.value.id)] else [])
    {
      context := None;
      var created := factory.CreateDbContext();
      if created.Fail? {
        return Fail(created.error), context;
      }
      var ctx := created.value;
      context := Some(ctx);
      ctx.tracking := NoTracking;
      var entitySet := EntitySet(ctx);
      var provider := entitySet.provider;
      if !provider.isAsync {
        ctx.Dispose();
        return Fail(InvalidOperation(NonAsyncProvider)), context;
      }
      var replaced := ReplaceProviderResult(query, entitySet, provider);
      if replaced.Fail? {
        ctx.Dispose();
        return Fail(replaced.error), context;
      }
      var result := factory.executeAsync(provider, ctx.tracking, replaced.value, resultType, CancellationToken(false));
      if result.Fail? {
        ctx.Dispose();
        return Fail(result.error), context;
      }
      return Ok(BufferAsyncResult(result.value, ctx)), context;
    }
  }
}
