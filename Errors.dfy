/** Option, Result and the exceptions the query-rebinding core raises or lets through. */
module Errors {

  /** A value that may be absent: the model of a nullable reference. */
  datatype Option<+T> = None | Some(value: T)

  /** Why an `ArgumentException` was raised. */
  datatype ArgumentReason =
    | NotFromEntityFramework   // the query has no query-root node
    | NullReplacement          // the visitor produced a null tree
    | UnsupportedExpression    // historical rewrite: neither a method call nor a root
    | NotACollection           // GetSequenceType on a type with no element type
    | ParameterMismatch        // reflective Invoke given an argument of the wrong type
    | ArgumentCount            // Expression.Call given a different number of arguments than the method takes

  /** Why an `InvalidOperationException` was raised. */
  datatype OperationReason =
    | NonAsyncProvider         // ExecuteAsync on a provider that is not an IAsyncQueryProvider
    | NoConstructor            // `First()` over an empty candidate constructor list

  /** The exceptions of the model. `Raised` stands for an exception thrown by a collaborator
      (the ORM provider, the context factory, an awaited task), which the core passes through.
      `TargetInvocation` is reflection's wrapper around an exception of a method it invoked.
      An `Argument` whose `paramName` is empty carries no parameter name. */
  datatype Error =
    | ArgumentNull(paramName: string)
    | Argument(paramName: string, reason: ArgumentReason)
    | InvalidOperation(why: OperationReason)
    | InvalidCast
    | AmbiguousMatch
    | NullReference
    | OperationCanceled
    | Raised(code: int)
    | TargetInvocation(inner: Error)

  /** Either a value or the exception that was thrown instead. */
  datatype Result<+T> = Ok(value: T) | Fail(error: Error) {
    predicate IsFailure() { Fail? }

    function PropagateFailure<U>(): Result<U>
      requires Fail?
    {
      Fail(error)
    }

    function Extract(): T
      requires Ok?
    {
      value
    }
  }
}
