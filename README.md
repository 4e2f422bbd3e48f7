# Query rebinding and per-query context lifetime in EntityFrameworkCore.Parallel

EntityFrameworkCore.Parallel lets several LINQ queries over one Entity Framework Core
`DbSet` run at the same time. Each query runs on its own `DbContext`, created by an
`IDbContextFactory`. This project models the core of that design in Dafny and proves
properties of the model:

- **Rebinding.** The query's expression tree is rebound onto the new context's entity set:
  every query-root node is replaced by a root that carries that context's provider.
  - `QueryRootReplace` models the current visitor with one shared replacement root.
  - `EntityQueryRootReplace` models the reflective visitor, which rebuilds each entity root
    through its widest usable constructor.
  - `LegacyQueryRootReplace` models the historical visitor.
  - The historical query context's own first-argument rewrite is in `LegacyQueryContext`.
- **Element types.** `SharedTypes` models how `SharedTypeExtensions` finds a sequence's
  element type over a graph of CLR types. `ClrTypes` holds the few conversion rules that
  decide whether the query context's reflective wrapping succeeds.
- **Context lifetime.** `QueryContext` (current revision) and `LegacyQueryContext`
  (historical revision) model `Execute`/`ExecuteAsync`. Each call creates one context, sets
  it to no-tracking, executes the rebound query, and then either disposes the context or
  hands it to a wrapper that will.
- **Wrappers.** `AutoDisposingSync`, `AutoDisposingAsync` and `Buffered` model the
  enumerables and enumerators that own a context. `Runtime` holds the objects they act on:
  the context, the list cursor, the query's source and a shared event log that records
  openings, materialisations and disposals in order.
- **Collaborators.** `Collaborators` holds the context factory and the ORM provider. Both
  are parameters of the model.

Common parts: `Errors` holds `Option`, `Result` and the exceptions. `Expressions` holds the
expression tree as a datatype, with reflection's case-insensitive property lookup and
constructor invocation.

Code that works step by step is modelled as classes and methods, each proved against a
specification function. These are:
- the visitors' flag-raising `Visit`;
- the wrappers' cursors;
- the query contexts' create/try/dispose sequence;
- the loops in `SharedTypeExtensions`.

Code that builds values is modelled as functions with lemmas: constructor choice, argument
mapping, element-type resolution, `Buffer` and the first-argument rewrite. An `await` is an
ordinary sequential call.

## Model

| member | source | states |
|---|---|---|
| Expressions.PropertiesNamed | src/EntityFrameworkCore.Parallel/EntityFrameworkCore.Parallel/EntityQueryRootExpressionReplaceVisitor.cs:75 | exactly the properties whose name equals the parameter name ignoring case, in order |
| Expressions.GetProperty | src/EntityFrameworkCore.Parallel/EntityFrameworkCore.Parallel/EntityQueryRootExpressionReplaceVisitor.cs:75 | no match gives none; one match gives that property, which is the only one with that name; two or more give `AmbiguousMatchException` |
| Expressions.DistinctNamesLookUp | src/EntityFrameworkCore.Parallel/EntityFrameworkCore.Parallel/EntityQueryRootExpressionReplaceVisitor.cs:75 | when a root's property names differ ignoring case, the case-insensitive lookup of each property's own name finds that property and no ambiguity |
| Expressions.Construct | src/EntityFrameworkCore.Parallel/EntityFrameworkCore.Parallel/EntityQueryRootExpressionReplaceVisitor.cs:63 | the new root has the chosen class and one property per argument; when the parameter names differ ignoring case, looking up a parameter's name on the new root gives back exactly the argument passed for it |
| QueryRootReplace.SetQueryRoot | src/EntityFrameworkCore.Parallel/EntityFrameworkCore.Parallel/QueryRootExpressionReplaceVisitor.cs:41-43 | the replacement is an entity root carrying the provider exactly when the provider is asynchronous, and always the set's entity type |
| QueryRootReplace.ReplaceAllShape | src/EntityFrameworkCore.Parallel/EntityFrameworkCore.Parallel/QueryRootExpressionReplaceVisitor.cs:60-68 | the rewrite keeps every non-root node, puts the shared root at every root position, and contains a root exactly when the input did |
| QueryRootReplace.ReplaceAllUnique | src/EntityFrameworkCore.Parallel/EntityFrameworkCore.Parallel/QueryRootExpressionReplaceVisitor.cs:60-68 | any tree that agrees with the input outside roots and has the shared root at every root is the rewrite |
| QueryRootReplace.ReplaceAllWithoutRoots | src/EntityFrameworkCore.Parallel/EntityFrameworkCore.Parallel/QueryRootExpressionReplaceVisitor.cs:68 | a tree without roots comes back unchanged |
| QueryRootReplace.ReplaceAllIdempotent | src/EntityFrameworkCore.Parallel/EntityFrameworkCore.Parallel/QueryRootExpressionReplaceVisitor.cs:60-68 | rebinding an already rebound tree changes nothing |
| QueryRootReplace.ReplaceProviderResult | src/EntityFrameworkCore.Parallel/EntityFrameworkCore.Parallel/QueryRootExpressionReplaceVisitor.cs:34-52 | null query, set, provider rejected in that order; success exactly when the tree holds a root, else `ArgumentException` on "query"; a success agrees with the input outside roots and has only the shared root; never the null-result exception |
| QueryRootReplace.QueryRootReplaceVisitor.constructor | src/EntityFrameworkCore.Parallel/EntityFrameworkCore.Parallel/QueryRootExpressionReplaceVisitor.cs:54-57 | stores the shared root; the flag starts false |
| QueryRootReplace.QueryRootReplaceVisitor.Visit | src/EntityFrameworkCore.Parallel/EntityFrameworkCore.Parallel/QueryRootExpressionReplaceVisitor.cs:60-69 | null stays null; otherwise the rewrite; the flag becomes old flag or "the tree holds a root", so it only goes from false to true |
| QueryRootReplace.QueryRootReplaceVisitor.VisitNode | src/EntityFrameworkCore.Parallel/EntityFrameworkCore.Parallel/QueryRootExpressionReplaceVisitor.cs:62-68 | a root is replaced without visiting inside it and raises the flag; other nodes are rebuilt from rewritten children |
| QueryRootReplace.QueryRootReplaceVisitor.VisitChildren | src/EntityFrameworkCore.Parallel/EntityFrameworkCore.Parallel/QueryRootExpressionReplaceVisitor.cs:68 | the base walk: each child rewritten, in order; the flag raised iff some child holds a root |
| QueryRootReplace.ReplaceProvider | src/EntityFrameworkCore.Parallel/EntityFrameworkCore.Parallel/QueryRootExpressionReplaceVisitor.cs:34-52 | the checks, one visit and the flag test compute `ReplaceProviderResult` |
| LegacyQueryRootReplace.ReplaceProviderResult | EntitiyFrameworkCore.Parallel/QueryRootExpressionReplaceVisitor.cs:34-55 | null checks in order; no root gives `ArgumentException`; a success is never null and equals the current revision's result |
| LegacyQueryRootReplace.ReplaceProvider | EntitiyFrameworkCore.Parallel/QueryRootExpressionReplaceVisitor.cs:34-55 | the historical checks and visit compute `LegacyQueryRootReplace.ReplaceProviderResult` |
| EntityQueryRootReplace.Candidates | src/EntityFrameworkCore.Parallel/EntityFrameworkCore.Parallel/EntityQueryRootExpressionReplaceVisitor.cs:90 | with an async provider only constructors with an `IAsyncQueryProvider` parameter; with any other provider all of them |
| EntityQueryRootReplace.LongestFirst | src/EntityFrameworkCore.Parallel/EntityFrameworkCore.Parallel/EntityQueryRootExpressionReplaceVisitor.cs:91-92 | the index of a candidate with the most parameters, and the first such in declaration order (a stable descending sort then `First`) |
| EntityQueryRootReplace.GetConstructorWithMostParameters | src/EntityFrameworkCore.Parallel/EntityFrameworkCore.Parallel/EntityQueryRootExpressionReplaceVisitor.cs:81-94 | fails with `InvalidOperationException` iff there is no candidate; otherwise a candidate of the class with the most parameters, every earlier candidate having strictly fewer |
| EntityQueryRootReplace.ParameterValue | src/EntityFrameworkCore.Parallel/EntityFrameworkCore.Parallel/EntityQueryRootExpressionReplaceVisitor.cs:71-76 | an async-provider parameter gets the provider, or `InvalidCastException` when it is not async; an entity-type parameter gets the set's entity type; any other gets the same-named property of the old root ignoring case, null when there is none, `AmbiguousMatchException` when two match |
| EntityQueryRootReplace.ArgumentValues | src/EntityFrameworkCore.Parallel/EntityFrameworkCore.Parallel/EntityQueryRootExpressionReplaceVisitor.cs:68-79 | succeeds iff every parameter's value does; then one value per parameter, in order; a failure is that of the first failing parameter |
| EntityQueryRootReplace.CreateQueryWithNewProvider | src/EntityFrameworkCore.Parallel/EntityFrameworkCore.Parallel/EntityQueryRootExpressionReplaceVisitor.cs:57-66 | succeeds iff a constructor is found and all its arguments are; the new root has the old root's class and a property per chosen parameter |
| EntityQueryRootReplace.SubstituteAllAt | src/EntityFrameworkCore.Parallel/EntityFrameworkCore.Parallel/EntityQueryRootExpressionReplaceVisitor.cs:51 | the children walk succeeds iff every child's does, and then gives each child's result at its index |
| EntityQueryRootReplace.SubstituteMeaning | src/EntityFrameworkCore.Parallel/EntityFrameworkCore.Parallel/EntityQueryRootExpressionReplaceVisitor.cs:42-52 | the visit succeeds iff every entity root can be rebuilt; then every entity root is replaced by its rebuilt root and nothing else changes |
| EntityQueryRootReplace.SubstituteWithoutEntityRoots | src/EntityFrameworkCore.Parallel/EntityFrameworkCore.Parallel/EntityQueryRootExpressionReplaceVisitor.cs:51 | a tree with no entity root comes back unchanged |
| EntityQueryRootReplace.SubstituteFailsAtEntityRoot | src/EntityFrameworkCore.Parallel/EntityFrameworkCore.Parallel/EntityQueryRootExpressionReplaceVisitor.cs:44-49 | a failing visit implies the tree holds an entity root |
| EntityQueryRootReplace.SubstituteAllPrefixFails | src/EntityFrameworkCore.Parallel/EntityFrameworkCore.Parallel/EntityQueryRootExpressionReplaceVisitor.cs:51 | once a child fails, the later children do not change the outcome |
| EntityQueryRootReplace.NoWalkErrorIsArgument | src/EntityFrameworkCore.Parallel/EntityFrameworkCore.Parallel/EntityQueryRootExpressionReplaceVisitor.cs:42-66 | a failure inside the visit is never an `ArgumentException` |
| EntityQueryRootReplace.FirstFailureIsRebuildError | src/EntityFrameworkCore.Parallel/EntityFrameworkCore.Parallel/EntityQueryRootExpressionReplaceVisitor.cs:57-94 | a failing visit fails with no constructor, a failed cast or an ambiguous property |
| EntityQueryRootReplace.FirstFailureInAll | src/EntityFrameworkCore.Parallel/EntityFrameworkCore.Parallel/EntityQueryRootExpressionReplaceVisitor.cs:51 | the same for a failing children walk |
| EntityQueryRootReplace.ReplaceProviderResult | src/EntityFrameworkCore.Parallel/EntityFrameworkCore.Parallel/EntityQueryRootExpressionReplaceVisitor.cs:116-130 | null checks in order; no entity root gives `ArgumentException` on "query"; otherwise success iff every entity root can be rebuilt, the result being the rebound tree; never the null-result exception |
| EntityQueryRootReplace.EntityQueryRootReplaceVisitor.constructor | src/EntityFrameworkCore.Parallel/EntityFrameworkCore.Parallel/EntityQueryRootExpressionReplaceVisitor.cs:34-39 | stores query, set and provider; the flag starts false |
| EntityQueryRootReplace.EntityQueryRootReplaceVisitor.Visit | src/EntityFrameworkCore.Parallel/EntityFrameworkCore.Parallel/EntityQueryRootExpressionReplaceVisitor.cs:42-52 | null stays null; otherwise the substitution; on success the flag is old flag or "holds an entity root"; on failure it is raised |
| EntityQueryRootReplace.EntityQueryRootReplaceVisitor.VisitNode | src/EntityFrameworkCore.Parallel/EntityFrameworkCore.Parallel/EntityQueryRootExpressionReplaceVisitor.cs:44-51 | the flag is raised before an entity root is rebuilt; other nodes go through the children walk |
| EntityQueryRootReplace.EntityQueryRootReplaceVisitor.VisitChildren | src/EntityFrameworkCore.Parallel/EntityFrameworkCore.Parallel/EntityQueryRootExpressionReplaceVisitor.cs:51 | the loop over the children computes the children walk and stops at the first failure |
| EntityQueryRootReplace.ReplaceProvider | src/EntityFrameworkCore.Parallel/EntityFrameworkCore.Parallel/EntityQueryRootExpressionReplaceVisitor.cs:116-130 | the checks, the visitor and the flag test compute `ReplaceProviderResult` |
| EntityQueryRootReplace.RebuildAgreesWithSharedRoot | src/EntityFrameworkCore.Parallel/EntityFrameworkCore.Parallel/EntityQueryRootExpressionReplaceVisitor.cs:57-94 | an `EntityQueryRootExpression` rebuilt for an async provider is the root the shared-root visitor uses |
| EntityQueryRootReplace.RebuildWithSyncProviderFails | src/EntityFrameworkCore.Parallel/EntityFrameworkCore.Parallel/EntityQueryRootExpressionReplaceVisitor.cs:73 | with a provider that is not async, the widest constructor is chosen and the provider cast fails |
| EntityQueryRootReplace.SubstituteAgreesWithReplaceAll | src/EntityFrameworkCore.Parallel/EntityFrameworkCore.Parallel/EntityQueryRootExpressionReplaceVisitor.cs:42-52 | on trees whose roots are all `EntityQueryRootExpression`, with an async provider, the reflective visit equals the shared-root rewrite |
| EntityQueryRootReplace.ReplaceProviderAgreesWithSharedRootVisitor | src/EntityFrameworkCore.Parallel/EntityFrameworkCore.Parallel/EntityQueryRootExpressionReplaceVisitor.cs:116-130 | on such trees both static `ReplaceProvider`s give the same result |
| SharedTypes.BaseChainShape | src/EntityFrameworkCore.Parallel/EntityFrameworkCore.Parallel/Internal/SharedTypeExtensions.cs:75-85 | one entry per level, each the base type of the one before, the last without a base, the type itself never included |
| SharedTypes.GetBaseTypes | src/EntityFrameworkCore.Parallel/EntityFrameworkCore.Parallel/Internal/SharedTypeExtensions.cs:75-85 | the loop yields exactly the base-type chain |
| SharedTypes.Matching | src/EntityFrameworkCore.Parallel/EntityFrameworkCore.Parallel/Internal/SharedTypeExtensions.cs:58-65 | exactly the entries whose generic definition is the target |
| SharedTypes.GetGenericTypeImplementations | src/EntityFrameworkCore.Parallel/EntityFrameworkCore.Parallel/Internal/SharedTypeExtensions.cs:50-73 | the loop yields the matching interfaces (interface target) or base types (class target), then the type itself if it matches; nothing for an open definition |
| SharedTypes.ImplementationsMeaning | src/EntityFrameworkCore.Parallel/EntityFrameworkCore.Parallel/Internal/SharedTypeExtensions.cs:50-73 | an implementation has the target definition and is a candidate or the type itself, which comes last |
| SharedTypes.TryGetElementType | src/EntityFrameworkCore.Parallel/EntityFrameworkCore.Parallel/Internal/SharedTypeExtensions.cs:24-47 | the loop with its early exit computes the single implementation's first argument, or nothing |
| SharedTypes.ElementTypeMeaning | src/EntityFrameworkCore.Parallel/EntityFrameworkCore.Parallel/Internal/SharedTypeExtensions.cs:33-47 | an element type exists iff exactly one implementation exists, and it is that implementation's first argument |
| SharedTypes.SequenceTypeOf | src/EntityFrameworkCore.Parallel/EntityFrameworkCore.Parallel/Internal/SharedTypeExtensions.cs:20-22 | the `IEnumerable<>` element type when there is one, else the `IAsyncEnumerable<>` one |
| SharedTypes.SequenceTypeMeaning | src/EntityFrameworkCore.Parallel/EntityFrameworkCore.Parallel/Internal/SharedTypeExtensions.cs:20-22 | the sequence type is `x` iff `IEnumerable<x>` is the single `IEnumerable<>` implementation, or there is no usable one and `IAsyncEnumerable<x>` is the single `IAsyncEnumerable<>` implementation |
| SharedTypes.TryGetSequenceType | src/EntityFrameworkCore.Parallel/EntityFrameworkCore.Parallel/Internal/SharedTypeExtensions.cs:20-22 | computes `SequenceTypeOf` |
| SharedTypes.GetSequenceType | src/EntityFrameworkCore.Parallel/EntityFrameworkCore.Parallel/Internal/SharedTypeExtensions.cs:13-18 | the sequence type, or `ArgumentException` on "type" exactly when there is none |
| SharedTypes.ListOfIntHasElementType | src/EntityFrameworkCore.Parallel/EntityFrameworkCore.Parallel/Internal/SharedTypeExtensions.cs:20-47 | a class implementing `IEnumerable<int>` has element type `int` |
| SharedTypes.TwoImplementationsHaveNoElementType | src/EntityFrameworkCore.Parallel/EntityFrameworkCore.Parallel/Internal/SharedTypeExtensions.cs:33-47 | two `IEnumerable<>` implementations give no element type |
| SharedTypes.AsyncOnlyFallsBack | src/EntityFrameworkCore.Parallel/EntityFrameworkCore.Parallel/Internal/SharedTypeExtensions.cs:20-22 | a type that is only an `IAsyncEnumerable<int>` has element type `int` |
| ClrTypes.ElementTypeRules | src/EntityFrameworkCore.Parallel/EntityFrameworkCore.Parallel/DbContextFactoryQueryContext.cs:199-200 | sequences: the generic argument, else the array element type, else `object`; tasks (line 233): the generic argument, else `object` |
| ClrTypes.SequenceVariance | src/EntityFrameworkCore.Parallel/EntityFrameworkCore.Parallel/DbContextFactoryQueryContext.cs:201-202 | a string is not an `IEnumerable<object>`; a list of a reference type is one |
| AutoDisposingSync.AutoDisposingEnumerator.constructor | EntitiyFrameworkCore.Parallel/AutoDisposingEnumerator.cs:12-13 | stores the inner enumerator and the disposable |
| AutoDisposingSync.AutoDisposingEnumerator.Create | EntitiyFrameworkCore.Parallel/AutoDisposingEnumerator.cs:15-22 | null source rejected before anything; the source is enumerated, and only then is a null disposable rejected; otherwise a fresh enumerator before the first element |
| AutoDisposingSync.AutoDisposingEnumerator.Current | EntitiyFrameworkCore.Parallel/AutoDisposingEnumerator.cs:24 | the inner cursor's element while it is on one, the default value before the first element and past the end |
| AutoDisposingSync.AutoDisposingEnumerator.MoveNext | EntitiyFrameworkCore.Parallel/AutoDisposingEnumerator.cs:34 | advances the inner cursor by one, up to one past the end; never touches the context, even at the end |
| AutoDisposingSync.AutoDisposingEnumerator.Reset | EntitiyFrameworkCore.Parallel/AutoDisposingEnumerator.cs:36 | the inner cursor goes back before the first element; the context is untouched |
| AutoDisposingSync.AutoDisposingEnumerator.Dispose | EntitiyFrameworkCore.Parallel/AutoDisposingEnumerator.cs:28-32 | disposes the inner cursor, then the context, each once more per call (no disposed flag) |
| AutoDisposingSync.Make | EntitiyFrameworkCore.Parallel/AutoDisposingEnumerable.cs:19-23 | succeeds iff both references are non-null, rejecting source first; stores both; nothing enumerated |
| AutoDisposingSync.GetEnumerator | EntitiyFrameworkCore.Parallel/AutoDisposingEnumerable.cs:25-30 | a fresh enumerator over the stored source sharing the one context, which is untouched |
| AutoDisposingSync.ForEach | EntitiyFrameworkCore.Parallel/AutoDisposingEnumerator.cs:24-34 | a `foreach` sees exactly the source's elements in order and disposes the context once, after the inner cursor |
| AutoDisposingAsync.AutoDisposingAsyncEnumerator.constructor | EntitiyFrameworkCore.Parallel/AutoDisposingAsyncEnumerator.cs:13-14 | stores the inner enumerator and the disposable |
| AutoDisposingAsync.AutoDisposingAsyncEnumerator.Create | EntitiyFrameworkCore.Parallel/AutoDisposingAsyncEnumerator.cs:26-33 | null source rejected first; the inner enumerator is opened, then a null disposable is rejected |
| AutoDisposingAsync.AutoDisposingAsyncEnumerator.Current | EntitiyFrameworkCore.Parallel/AutoDisposingAsyncEnumerator.cs:35 | the inner enumerator's element while it is on one, the default value otherwise |
| AutoDisposingAsync.AutoDisposingAsyncEnumerator.MoveNextAsync | EntitiyFrameworkCore.Parallel/AutoDisposingAsyncEnumerator.cs:45 | the inner step; exhaustion leaves the context alone |
| AutoDisposingAsync.AutoDisposingAsyncEnumerator.DisposeAsync | EntitiyFrameworkCore.Parallel/AutoDisposingAsyncEnumerator.cs:38-42 | the inner enumerator is disposed before the context |
| AutoDisposingAsync.Make | EntitiyFrameworkCore.Parallel/AutoDisposingAsyncEnumerable.cs:26-30 | null source, then null `dbSet`, rejected; nothing enumerated |
| AutoDisposingAsync.GetAsyncEnumerator | EntitiyFrameworkCore.Parallel/AutoDisposingAsyncEnumerable.cs:33 | a fresh enumerator over the same source and context; the token plays no part |
| AutoDisposingAsync.AwaitForEach | EntitiyFrameworkCore.Parallel/AutoDisposingAsyncEnumerator.cs:35-45 | an `await foreach` sees the source's elements in order and disposes the context once, after the inner enumerator |
| Buffered.BufferedAsyncEnumerator.constructor | EntitiyFrameworkCore.Parallel/BufferedAsyncEnumerator.cs:17-21 | stores the fields, no checks, no list cursor yet |
| Buffered.BufferedAsyncEnumerator.Current | EntitiyFrameworkCore.Parallel/BufferedAsyncEnumerator.cs:22 | the default value before the first `MoveNextAsync` has opened a list cursor; afterwards the list element under that cursor, or the default value past the end |
| Buffered.BufferedAsyncEnumerator.MoveNextAsync | EntitiyFrameworkCore.Parallel/BufferedAsyncEnumerator.cs:34-43 | the first call awaits the list (a fault propagates, no cursor) and opens a cursor on it; later calls reuse it; the answer is "still on an element" |
| Buffered.BufferedAsyncEnumerator.DisposeAsync | EntitiyFrameworkCore.Parallel/BufferedAsyncEnumerator.cs:24-32 | no list cursor gives `NullReferenceException` with nothing disposed; otherwise the cursor, then the context |
| Buffered.BufferedAsyncEnumerable.constructor | EntitiyFrameworkCore.Parallel/BufferedAsyncEnumerable.cs:16-17 | stores the list task and the disposable |
| Buffered.BufferedAsyncEnumerable.Create | EntitiyFrameworkCore.Parallel/BufferedAsyncEnumerable.cs:19-23 | the source is materialised at once (null source rejected by `ToListAsync`); the disposable is stored unchecked |
| Buffered.BufferedAsyncEnumerable.GetAsyncEnumerator | EntitiyFrameworkCore.Parallel/BufferedAsyncEnumerable.cs:25-28 | a fresh enumerator sharing the one list task and context; the source is not enumerated again |
| Buffered.AwaitForEach | EntitiyFrameworkCore.Parallel/BufferedAsyncEnumerator.cs:22-43 | a completed list is seen in order, then the cursor and the context are disposed once; a faulted list ends in the disposal's `NullReferenceException` with the context undisposed |
| QueryContext.AfterEnumeration | src/EntityFrameworkCore.Parallel/EntityFrameworkCore.Parallel/DbContextFactoryQueryContext.cs:197-205 | a sequence is wrapped with the computed element type iff it is an `IEnumerable<elem>` (else `ArgumentException`) and the wrapper casts to `TResult` (else `InvalidCastException`); the wrapper owns the context; anything else is handed back |
| QueryContext.AfterEnumerationAsync | src/EntityFrameworkCore.Parallel/EntityFrameworkCore.Parallel/DbContextFactoryQueryContext.cs:213-238 | sequences first, as an `IAsyncEnumerable<elem>`; then tasks, as a `Task<elem>` wrapped to dispose after the await; in both cases an unconvertible result gives `ArgumentException` and a wrapper that does not cast to `TResult` gives `InvalidCastException`; anything else is handed back |
| QueryContext.DbContextFactoryQueryContext.constructor | src/EntityFrameworkCore.Parallel/EntityFrameworkCore.Parallel/DbContextFactoryQueryContext.cs:24 | stores the factory |
| QueryContext.DbContextFactoryQueryContext.Create | src/EntityFrameworkCore.Parallel/EntityFrameworkCore.Parallel/DbContextFactoryQueryContext.cs:31-34 | a null factory gives `ArgumentNullException` |
| QueryContext.DbContextFactoryQueryContext.ExecuteRunsReboundQuery | src/EntityFrameworkCore.Parallel/EntityFrameworkCore.Parallel/DbContextFactoryQueryContext.cs:44-51 | on a given context: a query without a root fails before any provider; otherwise that context's own provider runs, without tracking, the query with every root replaced by the root of that context's own set |
| QueryContext.DbContextFactoryQueryContext.ExecuteAsyncRunsReboundQuery | src/EntityFrameworkCore.Parallel/EntityFrameworkCore.Parallel/DbContextFactoryQueryContext.cs:73-86 | on a given context: when its provider is not async, `InvalidOperationException` for every query, including ones the rebinding rejects; otherwise that context's provider runs the query rebound onto that context's set, with the caller's token |
| QueryContext.DbContextFactoryQueryContext.DisposeAfterEnumeration | src/EntityFrameworkCore.Parallel/EntityFrameworkCore.Parallel/DbContextFactoryQueryContext.cs:95-105 | wraps a sequence without disposing; disposes once for anything else |
| QueryContext.DbContextFactoryQueryContext.DisposeAfterEnumerationAsync | src/EntityFrameworkCore.Parallel/EntityFrameworkCore.Parallel/DbContextFactoryQueryContext.cs:107-123 | wraps sequences and tasks without disposing; disposes once for anything else |
| QueryContext.DbContextFactoryQueryContext.Execute | src/EntityFrameworkCore.Parallel/EntityFrameworkCore.Parallel/DbContextFactoryQueryContext.cs:37-59 | null query rejected with no context created; otherwise one fresh context, carrying the provider of that creation and set to no-tracking, on which the query is rebound and run; a failure is rethrown unchanged; the context is disposed exactly once when the call fails or the result is unwrapped, and not at all when wrapped |
| QueryContext.DbContextFactoryQueryContext.ExecuteAsync | src/EntityFrameworkCore.Parallel/EntityFrameworkCore.Parallel/DbContextFactoryQueryContext.cs:62-93 | the same lifetime rules on the async path, on the fresh context and its own provider, where a non-async provider is rejected before rebinding |
| QueryContext.AwaitDisposeAfterAwait | src/EntityFrameworkCore.Parallel/EntityFrameworkCore.Parallel/DbContextFactoryQueryContext.cs:252-257 | a completed task disposes the context once and gives its value; a faulted or cancelled task rethrows and leaves the context undisposed |
| QueryContext.EnumerableResultIsWrapped | src/EntityFrameworkCore.Parallel/EntityFrameworkCore.Parallel/DbContextFactoryQueryContext.cs:197-205 | an `IEnumerable<x>` result is wrapped with element type `x`, the wrapper owning the context |
| QueryContext.StringResultIsNotWrapped | src/EntityFrameworkCore.Parallel/EntityFrameworkCore.Parallel/DbContextFactoryQueryContext.cs:199-202 | a `string` result is taken for a sequence of `object` and the reflective call fails with `ArgumentException` |
| QueryContext.AsyncEnumerableResultIsWrapped | src/EntityFrameworkCore.Parallel/EntityFrameworkCore.Parallel/DbContextFactoryQueryContext.cs:213-221 | an `IAsyncEnumerable<x>` result is wrapped with element type `x` |
| QueryContext.TaskResultIsWrapped | src/EntityFrameworkCore.Parallel/EntityFrameworkCore.Parallel/DbContextFactoryQueryContext.cs:230-238 | a `Task<x>` becomes the dispose-after-await task; for a non-generic `Task` only a `Task<object>` can be wrapped |
| QueryContext.ExecuteAndEnumerate | src/EntityFrameworkCore.Parallel/EntityFrameworkCore.Parallel/DbContextFactoryQueryContext.cs:37-59 | `Execute` followed by a `foreach`: once a context exists it is disposed exactly once by the end, and a wrapped sequence yields the provider's elements in order |
| LegacyQueryContext.ReplaceProviderResult | EntitiyFrameworkCore.Parallel/DbContextFactoryQueryContext.cs:45-58 | a call keeps its name and arguments except the first, which becomes the new root; a root becomes the new root; other nodes give `ArgumentException`; null gives `NullReferenceException`; a call without arguments fails the rebuild |
| LegacyQueryContext.FirstArgumentRewriteAgreesOnSingleOperator | EntitiyFrameworkCore.Parallel/DbContextFactoryQueryContext.cs:51-52 | on one operator applied directly to a root, with no other roots, it equals the visitor-based rebinding |
| LegacyQueryContext.FirstArgumentRewriteDropsInnerOperators | EntitiyFrameworkCore.Parallel/DbContextFactoryQueryContext.cs:51-52 | `Count(Where(root, p))` becomes `Count(newRoot)`, while the visitor gives `Count(Where(newRoot, p))` |
| LegacyQueryContext.BufferResult | EntitiyFrameworkCore.Parallel/DbContextFactoryQueryContext.cs:60-78 | a sequence with one generic argument becomes a list of its elements in order, or fails (argument mismatch, the wrapped enumeration exception, a failed cast); anything else is returned unchanged |
| LegacyQueryContext.BufferAsyncResult | EntitiyFrameworkCore.Parallel/DbContextFactoryQueryContext.cs:110-119 | sequences go to the buffering helper with the context; anything else is returned unchanged |
| LegacyQueryContext.Buffer | EntitiyFrameworkCore.Parallel/DbContextFactoryQueryContext.cs:60-78 | computes `BufferResult`, running the source to its end exactly when the list is built |
| LegacyQueryContext.DbContextFactoryQueryContext.constructor | EntitiyFrameworkCore.Parallel/DbContextFactoryQueryContext.cs:22 | stores the factory |
| LegacyQueryContext.DbContextFactoryQueryContext.Create | EntitiyFrameworkCore.Parallel/DbContextFactoryQueryContext.cs:24-27 | a null factory gives `ArgumentNullException` |
| LegacyQueryContext.DbContextFactoryQueryContext.Execute | EntitiyFrameworkCore.Parallel/DbContextFactoryQueryContext.cs:29-43 | always one fresh context, carrying the provider of that creation and set to no-tracking, on which the query is rewritten and run; a null query fails in the rewrite after it was created; the context is disposed exactly once on every exit, after the result was buffered; failures are rethrown unchanged |
| LegacyQueryContext.DbContextFactoryQueryContext.ExecuteAsync | EntitiyFrameworkCore.Parallel/DbContextFactoryQueryContext.cs:80-108 | on the fresh context and its own provider: a non-async provider is rejected; any failure disposes once and is rethrown; a success leaves the context undisposed; the result does not depend on the caller's token |

## Left out

- The expression tree is reduced to roots, method calls (name and arguments) and one
  generic node kind. Node types, lambdas and `Expression.Call`'s type validation are not
  modelled. The historical rewrite's argument-count check is the only validation kept.
- Reflection (`GetConstructors`, `GetProperty(...).GetValue`, `MethodInfo.Invoke`,
  `MakeGenericMethod`) is reduced to a few rules:
  - constructor selection;
  - case-insensitive property lookup;
  - the argument-type check of `Invoke`;
  - the cast of its result.

  A root constructor is taken to store each argument in the property named after its
  parameter.
- Case-insensitive property lookup folds the case of ASCII letters only; reflection's
  `IgnoreCase` folds all of Unicode, which matters only for non-ASCII property names.
- CLR conversions are modelled only as identity, base class, implemented interface and
  variance of `IEnumerable<out T>`/`IAsyncEnumerable<out T>`. User-defined conversions,
  boxing of structs and nullable types are not modelled.
- The ORM provider, `DbContext`, `DbSet` and the factory are parameters. A context is an id,
  its own provider (the factory's n-th creation gets the n-th provider), a tracking mode and a
  dispose counter. All events go to one shared log so their order can be
  stated. The wrappers' preconditions that a source and its context share that log are a
  device of the model, not a demand of the source.
- A provider result is classified as enumerable, task or plain. A result that is both
  enumerable and a task counts as enumerable, which matches the order of the source's tests.
- Cursor steps and disposals of collaborators never fail, and `DisposeAsync` of a context
  behaves like `Dispose`.
- Concurrency, the parallel use the library exists for, and `ValueTask`'s single-await rule
  are not modelled. A `BufferedAsyncEnumerable` awaiting its shared list task from several
  enumerators is therefore not checked. Every `await` is a sequential call.
- Cancellation tokens are only passed along or ignored as the source does; cancellation of a
  running query is not modelled. The one cancelled case kept is an awaited task's.
- `AutoDisposingSync.Make` models both copies of `AutoDisposingEnumerable<T>`
  (EntitiyFrameworkCore.Parallel/AutoDisposingEnumerable.cs and
  EntityFrameworkCore.Parallel/AutoDisposingEnumerable.cs). Their code is the same, so one
  model stands for both.
- Non-generic `GetEnumerator` and `IEnumerator.Current` forward to the generic members and
  have no members of their own.
- The asynchronous `Buffer` helper called by the historical `BufferAsync` is not part of this
  model. `LegacyQueryContext.BufferAsyncResult` only records what is handed to it.
- `EnumerableExtensions`/`AsyncEnumerableExtensions` are one-line aliases for the wrapper
  constructors and are modelled by them. The placeholder `EntityType` is only a tag carrying
  the entity's type name.
- `QueryProvider`, `DbContextFactoryExtensions`, `DbContextFactoryWrapper` and the static
  `MethodInfo` caches are not modelled: they contain no logic beyond delegation.
- Tests, performance harnesses and the demo model are not modelled.

## Findings

| source | as written | input that shows it | evidently intended | confidence | as-written member | corrected member |
|---|---|---|---|---|---|---|
| EntitiyFrameworkCore.Parallel/DbContextFactoryQueryContext.cs:51-52 | the historical rebinding replaces only the first argument of the outermost method call with the new root | `Count(Where(root, p))`: the rewrite gives `Count(newRoot)`, dropping the filter | every query root replaced wherever it sits, with all operators kept, as the visitor-based rebinding of the current revision does | high, not executed | LegacyQueryContext.FirstArgumentRewriteDropsInnerOperators | QueryRootReplace.ReplaceProviderResult |
