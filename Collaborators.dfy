/** What the query context calls but does not implement: the `IDbContextFactory` that creates
    contexts, and the ORM provider that executes a rewritten query. Both are parameters of the
    model: the factory's n-th creation may fail, and execution is an arbitrary function of the
    provider, the context's tracking mode, the query and `TResult` that may fail. */
module Collaborators {
  import opened Errors
  import opened Expressions
  import opened Runtime
  import opened SharedTypes

  /** The state of a `Task` when it is awaited. */
  datatype TaskState = TaskCompleted(result: Value) | TaskFaulted(error: Error) | TaskCanceled

  /** What the provider returned, classified the way the query context tests it:
      `Sequence` is any result that `is IEnumerable` (whatever else it is), `TaskResult` a
      `Task` that is not enumerable, `Plain` everything else, null included. */
  datatype Payload =
    | Sequence(runtimeType: Type, source: Source<Value>)
    | TaskResult(runtimeType: Type, state: TaskState)
    | Plain(value: Value)

  class ContextFactory {
    const log: Log
    /** The provider behind `Set<TEntity>()` of the context the n-th call creates. */
    const providerOf: nat -> Provider
    /** The exception of the n-th `CreateDbContext` call, if it throws. */
    const creationFault: nat -> Option<Error>
    /** `IQueryProvider.Execute<TResult>`. */
    const execute: (Provider, Tracking, Expr, Type) -> Result<Payload>
    /** `IAsyncQueryProvider.ExecuteAsync<TResult>`. */
    const executeAsync: (Provider, Tracking, Expr, Type, CancellationToken) -> Result<Payload>
    var created: nat

    constructor (log: Log, providerOf: nat -> Provider, creationFault: nat -> Option<Error>,
                 execute: (Provider, Tracking, Expr, Type) -> Result<Payload>,
                 executeAsync: (Provider, Tracking, Expr, Type, CancellationToken) -> Result<Payload>)
      ensures this.log == log && this.providerOf == providerOf && this.creationFault == creationFault
      ensures this.execute == execute && this.executeAsync == executeAsync && created == 0
    {
      this.log := log;
      this.providerOf := providerOf;
      this.creationFault := creationFault;
      this.execute := execute;
      this.executeAsync := executeAsync;
      created := 0;
    }

    /** Every sequence the provider hands back records its events in the world's log. */
    ghost predicate Valid() {
      (forall p, t, q, rt :: execute(p, t, q, rt).Ok? && execute(p, t, q, rt).value.Sequence? ==>
         execute(p, t, q, rt).value.source.log == log) &&
      (forall p, t, q, rt, c :: executeAsync(p, t, q, rt, c).Ok? && executeAsync(p, t, q, rt, c).value.Sequence? ==>
         executeAsync(p, t, q, rt, c).value.source.log == log)
    }

    /** `CreateDbContext`: a fresh, tracking context numbered by the call, with that call's
        provider, or the factory's exception. */
    method CreateDbContext() returns (r: Result<Context>)
      modifies this
      ensures created == old(created) + 1
      ensures creationFault(old(created)).Some? ==> r == Fail(creationFault(old(created)).value)
      ensures creationFault(old(created)).None? ==>
        r.Ok? && fresh(r.value) && r.value.id == old(created) && r.value.log == log && r.value.provider == providerOf(old(created)) &&
        r.value.tracking == TrackAll && r.value.disposeCount == 0
    {
      var fault := creationFault(created);
      created := created + 1;
      if fault.Some? {
        return Fail(fault.value);
      }
      var c := new Context(created - 1, log, providerOf(created - 1));
      return Ok(c);
    }
  }
}
