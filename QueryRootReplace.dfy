/** `QueryRootExpressionReplaceVisitor` (current revision): every query-root node of a query is
    replaced by one shared root bound to a live entity set and, when it is asynchronous, to
    that set's provider. */
module QueryRootReplace {
  import opened Errors
  import opened Expressions

  /** The shared replacement root: `new EntityQueryRootExpression(asyncProvider, set.EntityType)`
      for an async provider, `new EntityQueryRootExpression(set.EntityType)` otherwise. */
  function SetQueryRoot(dbSet: DbSet, provider: Provider): (r: QueryRoot)
    ensures r.cls == EntityQueryRootClass
    ensures GetProperty(r.props, "asyncQueryProvider") ==
      if provider.isAsync then Ok(Some(Property("asyncQueryProvider", ProviderRef(provider)))) else Ok(None)
    ensures GetProperty(r.props, "entityType") == Ok(Some(Property("entityType", EntityTypeRef(dbSet.entityType))))
  {
    if provider.isAsync then
      var r := Construct(EntityQueryRootClass, EntityQueryRootClass.ctors[0], [ProviderRef(provider), EntityTypeRef(dbSet.entityType)]);
      assert r.props == [Property("asyncQueryProvider", ProviderRef(provider)), Property("entityType", EntityTypeRef(dbSet.entityType))];
      assert PropertiesNamed(r.props[1..], "asyncQueryProvider") == [];
      assert PropertiesNamed(r.props, "asyncQueryProvider") == [r.props[0]];
      r
    else
      Construct(EntityQueryRootClass, EntityQueryRootClass.ctors[1], [EntityTypeRef(dbSet.entityType)])
  }

  /** What the visitor computes: each root becomes `r` (its inside is not visited), every other
      node is rebuilt from its rewritten children. */
  function ReplaceAll(e: Expr, r: QueryRoot): Expr {
    match e
    case Root(_) => Root(r)
    case Call(m, args) => Call(m, seq(|args|, i requires 0 <= i < |args| => ReplaceAll(args[i], r)))
    case Other(k, cs) => Other(k, seq(|cs|, i requires 0 <= i < |cs| => ReplaceAll(cs[i], r)))
  }

  /** `Visit` on a nullable node: null stays null. */
  function VisitResult(node: Option<Expr>, r: QueryRoot): Option<Expr> {
    if node.None? then None else Some(ReplaceAll(node.value, r))
  }

  /** The rewrite keeps every non-root node, puts `r` at every root position and no root
      anywhere else. */
  lemma {:induction false} ReplaceAllShape(e: Expr, r: QueryRoot)
    ensures AgreeOutsideRoots(e, ReplaceAll(e, r))
    ensures AllRootsAre(ReplaceAll(e, r), r)
    ensures ContainsRoot(ReplaceAll(e, r)) == ContainsRoot(e)
  {
    match e
    case Root(_) =>
    case Call(m, args) =>
      forall i | 0 <= i < |args| { ReplaceAllShape(args[i], r); }
      var xs := ReplaceAll(e, r).args;
      if ContainsRoot(e) {
        var i :| 0 <= i < |args| && ContainsRoot(args[i]);
        assert ContainsRoot(xs[i]);
      }
      if ContainsRoot(ReplaceAll(e, r)) {
        var i :| 0 <= i < |xs| && ContainsRoot(xs[i]);
        assert ContainsRoot(args[i]);
      }
    case Other(k, cs) =>
      forall i | 0 <= i < |cs| { ReplaceAllShape(cs[i], r); }
      var xs := ReplaceAll(e, r).children;
      if ContainsRoot(e) {
        var i :| 0 <= i < |cs| && ContainsRoot(cs[i]);
        assert ContainsRoot(xs[i]);
      }
      if ContainsRoot(ReplaceAll(e, r)) {
        var i :| 0 <= i < |xs| && ContainsRoot(xs[i]);
        assert ContainsRoot(cs[i]);
      }
  }

  /** The rewrite is the only tree that agrees with `e` outside roots and has `r` at every
      root: an independent description of what the visitor returns. */
  lemma {:induction false} ReplaceAllUnique(e: Expr, t: Expr, r: QueryRoot)
    requires AgreeOutsideRoots(e, t) && AllRootsAre(t, r)
    ensures t == ReplaceAll(e, r)
  {
    match e
    case Root(_) =>
    case Call(m, args) =>
      forall i | 0 <= i < |args| ensures t.args[i] == ReplaceAll(e, r).args[i] {
        ReplaceAllUnique(args[i], t.args[i], r);
      }
    case Other(k, cs) =>
      forall i | 0 <= i < |cs| ensures t.children[i] == ReplaceAll(e, r).children[i] {
        ReplaceAllUnique(cs[i], t.children[i], r);
      }
  }

  /** A tree without roots comes back unchanged. */
  lemma {:induction false} ReplaceAllWithoutRoots(e: Expr, r: QueryRoot)
    requires !ContainsRoot(e)
    ensures ReplaceAll(e, r) == e
  {
    match e
    case Root(_) =>
    case Call(m, args) =>
      forall i | 0 <= i < |args| ensures ReplaceAll(args[i], r) == args[i] {
        ReplaceAllWithoutRoots(args[i], r);
      }
    case Other(k, cs) =>
      forall i | 0 <= i < |cs| ensures ReplaceAll(cs[i], r) == cs[i] {
        ReplaceAllWithoutRoots(cs[i], r);
      }
  }

  /** Rebinding an already rebound query changes nothing. */
  lemma ReplaceAllIdempotent(e: Expr, r: QueryRoot)
    ensures ReplaceAll(ReplaceAll(e, r), r) == ReplaceAll(e, r)
  {
    var t := ReplaceAll(e, r);
    ReplaceAllShape(e, r);
    ReplaceAllShape(t, r);
    AgreeOutsideRootsTransitive(e, t, ReplaceAll(t, r));
    ReplaceAllUnique(e, ReplaceAll(t, r), r);
    ReplaceAllUnique(e, t, r);
  }

  lemma {:induction false} AgreeOutsideRootsTransitive(a: Expr, b: Expr, c: Expr)
    requires AgreeOutsideRoots(a, b) && AgreeOutsideRoots(b, c)
    ensures AgreeOutsideRoots(a, c)
  {
    match a
    case Root(_) =>
    case Call(m, xs) =>
      forall i | 0 <= i < |xs| ensures AgreeOutsideRoots(xs[i], c.args[i]) {
        AgreeOutsideRootsTransitive(xs[i], b.args[i], c.args[i]);
      }
    case Other(k, xs) =>
      forall i | 0 <= i < |xs| ensures AgreeOutsideRoots(xs[i], c.children[i]) {
        AgreeOutsideRootsTransitive(xs[i], b.children[i], c.children[i]);
      }
  }

  /** The static `ReplaceProvider`, as a function of its three nullable arguments. */
  function ReplaceProviderResult(query: Option<Expr>, dbSet: Option<DbSet>, provider: Option<Provider>): (r: Result<Expr>)
    ensures query.None? ==> r == Fail(ArgumentNull("query"))
    ensures query.Some? && dbSet.None? ==> r == Fail(ArgumentNull("set"))
    ensures query.Some? && dbSet.Some? && provider.None? ==> r == Fail(ArgumentNull("provider"))
    ensures query.Some? && dbSet.Some? && provider.Some? ==>
      (r.Ok? <==> ContainsRoot(query.value)) &&
      (!ContainsRoot(query.value) ==> r == Fail(Argument("query", NotFromEntityFramework)))
    ensures r.Ok? ==>
      AgreeOutsideRoots(query.value, r.value) && AllRootsAre(r.value, SetQueryRoot(dbSet.value, provider.value))
    ensures r != Fail(Argument("query", NullReplacement))
  {
    if query.None? then Fail(ArgumentNull("query"))
    else if dbSet.None? then Fail(ArgumentNull("set"))
    else if provider.None? then Fail(ArgumentNull("provider"))
    else
      var setQuery := SetQueryRoot(dbSet.value, provider.value);
      var replaced := VisitResult(query, setQuery);
      ReplaceAllShape(query.value, setQuery);
      if !ContainsRoot(query.value) then Fail(Argument("query", NotFromEntityFramework))
      else if replaced.None? then Fail(Argument("query", NullReplacement))
      else Ok(replaced.value)
  }

  /** The visitor object: the shared replacement and the flag `Visit` raises on each root. */
  class QueryRootReplaceVisitor {
    const setQuery: QueryRoot
    var queryWasReplaced: bool

    constructor (setQuery: QueryRoot)
      ensures this.setQuery == setQuery && !queryWasReplaced
    {
      this.setQuery := setQuery;
      queryWasReplaced := false;
    }

    /** The override of `ExpressionVisitor.Visit`. The flag only ever goes from false to true. */
    method Visit(node: Option<Expr>) returns (r: Option<Expr>)
      modifies this
      ensures r == VisitResult(node, setQuery)
      ensures queryWasReplaced == (old(queryWasReplaced) || (node.Some? && ContainsRoot(node.value)))
    {
      if node.None? {
        return None;
      }
      var e := VisitNode(node.value);
      return Some(e);
    }

    method VisitNode(e: Expr) returns (r: Expr)
      modifies this
      decreases e, 1
      ensures r == ReplaceAll(e, setQuery)
      ensures queryWasReplaced == (old(queryWasReplaced) || ContainsRoot(e))
    {
      match e {
        case Root(_) =>
          queryWasReplaced := true;
          r := Root(setQuery);
        case Call(m, args) =>
          var xs := VisitChildren(args);
          r := Call(m, xs);
        case Other(k, cs) =>
          var xs := VisitChildren(cs);
          r := Other(k, xs);
      }
    }

    /** The base visitor's walk over a node's children, left to right. */
    method VisitChildren(cs: seq<Expr>) returns (xs: seq<Expr>)
      modifies this
      decreases cs, 0
      ensures xs == seq(|cs|, j requires 0 <= j < |cs| => ReplaceAll(cs[j], setQuery))
      ensures queryWasReplaced == (old(queryWasReplaced) || exists j :: 0 <= j < |cs| && ContainsRoot(cs[j]))
    {
      xs := [];
      var i := 0;
      while i < |cs|
        invariant 0 <= i <= |cs|
        invariant xs == seq(i, j requires 0 <= j < i => ReplaceAll(cs[j], setQuery))
        invariant queryWasReplaced == (old(queryWasReplaced) || exists j :: 0 <= j < i && ContainsRoot(cs[j]))
      {
        var x := VisitNode(cs[i]);
        xs := xs + [x];
        i := i + 1;
      }
    }
  }

  /** `QueryRootExpressionReplaceVisitor.ReplaceProvider`: argument checks, the shared root,
      one visit, then the "replaced" and "null" checks. */
  method ReplaceProvider(query: Option<Expr>, dbSet: Option<DbSet>, provider: Option<Provider>) returns (r: Result<Expr>)
    ensures r == ReplaceProviderResult(query, dbSet, provider)
  {
    if query.None? { return Fail(ArgumentNull("query")); }
    if dbSet.None? { return Fail(ArgumentNull("set")); }
    if provider.None? { return Fail(ArgumentNull("provider")); }
    var setQuery := SetQueryRoot(dbSet.value, provider.value);
    var visitor := new QueryRootReplaceVisitor(setQuery);
    var replaced := visitor.Visit(query);
    if !visitor.queryWasReplaced {
      return Fail(Argument("query", NotFromEntityFramework));
    }
    if replaced.None? {
      return Fail(Argument("query", NullReplacement));
    }
    return Ok(replaced.value);
  }
}
