/** `QueryRootExpressionReplaceVisitor` in the historical revision. Its `Visit` override is the
    same as the current one (raise the flag, return the shared root, otherwise let the base
    visitor descend), so the visitor class of `QueryRootReplace` serves both. Its
    `ReplaceProvider` differs only in returning the visited tree without a null check; the
    shared root is built the same way (EF Core 6 named that entity root `QueryRootExpression`). */
module LegacyQueryRootReplace {
  import opened Errors
  import opened Expressions
  import QueryRootReplace

  /** The historical `ReplaceProvider` as a function: the three null checks in order, the
      "replaced" check, and the visited (nullable) tree handed back as it is. It agrees with the
      current revision, and in particular never hands back null. */
  function ReplaceProviderResult(query: Option<Expr>, dbSet: Option<DbSet>, provider: Option<Provider>): (r: Result<Option<Expr>>)
    ensures query.None? ==> r == Fail(ArgumentNull("query"))
    ensures query.Some? && dbSet.None? ==> r == Fail(ArgumentNull("set"))
    ensures query.Some? && dbSet.Some? && provider.None? ==> r == Fail(ArgumentNull("provider"))
    ensures r.Ok? ==> r.value.Some?
    ensures r == match QueryRootReplace.ReplaceProviderResult(query, dbSet, provider)
                 case Ok(e) => Ok(Some(e))
                 case Fail(err) => Fail(err)
  {
    if query.None? then Fail(ArgumentNull("query"))
    else if dbSet.None? then Fail(ArgumentNull("set"))
    else if provider.None? then Fail(ArgumentNull("provider"))
    else
      var setQuery := QueryRootReplace.SetQueryRoot(dbSet.value, provider.value);
      var replaced := QueryRootReplace.VisitResult(query, setQuery);
      QueryRootReplace.ReplaceAllShape(query.value, setQuery);
      if !ContainsRoot(query.value) then Fail(Argument("query", NotFromEntityFramework))
      else Ok(replaced)
  }

  method ReplaceProvider(query: Option<Expr>, dbSet: Option<DbSet>, provider: Option<Provider>) returns (r: Result<Option<Expr>>)
    ensures r == ReplaceProviderResult(query, dbSet, provider)
  {
    if query.None? { return Fail(ArgumentNull("query")); }
    if dbSet.None? { return Fail(ArgumentNull("set")); }
    if provider.None? { return Fail(ArgumentNull("provider")); }
    var setQuery := QueryRootReplace.SetQueryRoot(dbSet.value, provider.value);
    var visitor := new QueryRootReplace.QueryRootReplaceVisitor(setQuery);
    var replaced := visitor.Visit(query);
    if !visitor.queryWasReplaced {
      return Fail(Argument("query", NotFromEntityFramework));
    }
    return Ok(replaced);
  }
}
