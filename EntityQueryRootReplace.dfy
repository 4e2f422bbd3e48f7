/** `EntityQueryRootExpressionReplaceVisitor` (current revision): every entity-root node is
    replaced by a new node of the same runtime class, built reflectively with the constructor
    that takes the most parameters (among those taking an `IAsyncQueryProvider` when the
    provider is async) and with arguments taken from the provider, the live set's metadata, or
    the old node's same-named property. */
module EntityQueryRootReplace {
  import opened Errors
  import opened Expressions
  import QueryRootReplace

  predicate TakesAsyncProvider(c: Ctor) {
    exists i :: 0 <= i < |c.params| && c.params[i].paramType == AsyncQueryProviderType
  }

  /** The `Where` filter of `GetConstructorWithMostParameters`. */
  predicate IsCandidate(c: Ctor, provider: Provider) {
    !provider.isAsync || TakesAsyncProvider(c)
  }

  function Candidates(ctors: seq<Ctor>, provider: Provider): (r: seq<Ctor>)
    ensures forall c :: c in r <==> c in ctors && IsCandidate(c, provider)
    ensures !provider.isAsync ==> r == ctors
  {
    if ctors == [] then []
    else
      var rest := Candidates(ctors[1..], provider);
      assert forall c :: c in ctors <==> c == ctors[0] || c in ctors[1..];
      assert ctors == [ctors[0]] + ctors[1..];
      if IsCandidate(ctors[0], provider) then [ctors[0]] + rest else rest
  }

  /** `OrderByDescending(c => c.GetParameters().Length).First()`: the sort is stable, so the
      winner is the first constructor with the largest parameter count. */
  function LongestFirst(cands: seq<Ctor>): (k: nat)
    requires |cands| > 0
    ensures k < |cands|
    ensures forall j :: 0 <= j < |cands| ==> |cands[j].params| <= |cands[k].params|
    ensures forall j :: 0 <= j < k ==> |cands[j].params| < |cands[k].params|
  {
    if |cands| == 1 then 0
    else
      var k' := LongestFirst(cands[1..]);
      assert forall j :: 1 <= j < |cands| ==> cands[j] == cands[1..][j - 1];
      if |cands[0].params| >= |cands[k' + 1].params| then 0 else k' + 1
  }

  /** The chosen constructor, or the `InvalidOperationException` of `First()` on no candidate. */
  function GetConstructorWithMostParameters(root: QueryRoot, provider: Provider): (r: Result<Ctor>)
    ensures r.Fail? <==> Candidates(root.cls.ctors, provider) == []
    ensures r.Fail? ==> r.error == InvalidOperation(NoConstructor)
    ensures r.Ok? ==> r.value in root.cls.ctors && IsCandidate(r.value, provider)
    ensures r.Ok? ==> forall c :: c in root.cls.ctors && IsCandidate(c, provider) ==> |c.params| <= |r.value.params|
    ensures r.Ok? ==>
      var cands := Candidates(root.cls.ctors, provider);
      exists k :: 0 <= k < |cands| && cands[k] == r.value && forall j :: 0 <= j < k ==> |cands[j].params| < |r.value.params|
  {
    var cands := Candidates(root.cls.ctors, provider);
    if cands == [] then Fail(InvalidOperation(NoConstructor))
    else
      var k := LongestFirst(cands);
      assert cands[k] in cands;
      Ok(cands[k])
  }

  /** The argument for one constructor parameter: the provider cast to `IAsyncQueryProvider`
      (which fails for a provider that is not one), the live set's entity type, or the old
      node's property whose name matches the parameter's ignoring case (null if none). */
  function ParameterValue(p: Param, root: QueryRoot, dbSet: DbSet, provider: Provider): (r: Result<Value>)
    ensures p.paramType == AsyncQueryProviderType ==>
      r == if provider.isAsync then Ok(ProviderRef(provider)) else Fail(InvalidCast)
    ensures p.paramType == EntityTypeType ==> r == Ok(EntityTypeRef(dbSet.entityType))
    ensures p.paramType.OtherType? ==>
      ((forall q :: q in root.props ==> !EqualsIgnoreCase(q.name, p.name)) ==> r == Ok(Null)) &&
      (r.Ok? ==> forall q :: q in root.props && EqualsIgnoreCase(q.name, p.name) ==> r.value == q.value) &&
      (r.Fail? <==> |PropertiesNamed(root.props, p.name)| >= 2) &&
      (r.Fail? ==> r.error == AmbiguousMatch)
  {
    match p.paramType
    case AsyncQueryProviderType => if provider.isAsync then Ok(ProviderRef(provider)) else Fail(InvalidCast)
    case EntityTypeType => Ok(EntityTypeRef(dbSet.entityType))
    case OtherType(_) =>
      var prop :- GetProperty(root.props, p.name);
      if prop.None? then Ok(Null) else Ok(prop.value.value)
  }

  /** `CreateConstructorParameterValues`: one argument per parameter, in order; the first
      parameter whose value fails stops the `Select(...).ToArray()`. */
  function ArgumentValues(params: seq<Param>, root: QueryRoot, dbSet: DbSet, provider: Provider): (r: Result<seq<Value>>)
    ensures r.Ok? <==> forall i :: 0 <= i < |params| ==> ParameterValue(params[i], root, dbSet, provider).Ok?
    ensures r.Ok? ==>
      |r.value| == |params| &&
      forall i :: 0 <= i < |params| ==> r.value[i] == ParameterValue(params[i], root, dbSet, provider).value
    ensures r.Fail? ==>
      exists i :: 0 <= i < |params| &&
        ParameterValue(params[i], root, dbSet, provider) == Fail(r.error) &&
        forall j :: 0 <= j < i ==> ParameterValue(params[j], root, dbSet, provider).Ok?
  {
    if params == [] then Ok([])
    else
      var v :- ParameterValue(params[0], root, dbSet, provider);
      assert forall i :: 1 <= i < |params| ==> params[i] == params[1..][i - 1];
      var rest :- ArgumentValues(params[1..], root, dbSet, provider);
      Ok([v] + rest)
  }

  /** `CreateQueryWithNewProvider`: a new node of the old node's class, built by the chosen
      constructor from the computed arguments. */
  function CreateQueryWithNewProvider(root: QueryRoot, dbSet: DbSet, provider: Provider): (r: Result<QueryRoot>)
    ensures r.Ok? <==>
      GetConstructorWithMostParameters(root, provider).Ok? &&
      ArgumentValues(GetConstructorWithMostParameters(root, provider).value.params, root, dbSet, provider).Ok?
    ensures r.Ok? ==>
      var c := GetConstructorWithMostParameters(root, provider).value;
      r.value.cls == root.cls && |r.value.props| == |c.params| &&
      forall i :: 0 <= i < |c.params| ==>
        r.value.props[i] == Property(c.params[i].name, ParameterValue(c.params[i], root, dbSet, provider).value)
  {
    var c :- GetConstructorWithMostParameters(root, provider);
    var args :- ArgumentValues(c.params, root, dbSet, provider);
    Ok(Construct(root.cls, c, args))
  }

  /** What the visitor computes: a depth-first, left-to-right walk in which each entity root is
      rebuilt (and not descended into) and the first failure ends the walk. Roots of other
      kinds have no children and come back unchanged. */
  function Substitute(e: Expr, dbSet: DbSet, provider: Provider): Result<Expr>
    decreases e, 1
  {
    match e
    case Root(q) =>
      if q.cls.isEntityRoot then
        var n :- CreateQueryWithNewProvider(q, dbSet, provider);
        Ok(Root(n))
      else Ok(e)
    case Call(m, args) =>
      var xs :- SubstituteAll(args, dbSet, provider);
      Ok(Call(m, xs))
    case Other(k, cs) =>
      var xs :- SubstituteAll(cs, dbSet, provider);
      Ok(Other(k, xs))
  }

  function SubstituteAll(es: seq<Expr>, dbSet: DbSet, provider: Provider): Result<seq<Expr>>
    decreases es, 0
  {
    if es == [] then Ok([])
    else
      var xs :- SubstituteAll(es[..|es| - 1], dbSet, provider);
      var x :- Substitute(es[|es| - 1], dbSet, provider);
      Ok(xs + [x])
  }

  /** Every entity root of the tree can be rebuilt. */
  predicate AllRebindable(e: Expr, dbSet: DbSet, provider: Provider) {
    match e
    case Root(q) => q.cls.isEntityRoot ==> CreateQueryWithNewProvider(q, dbSet, provider).Ok?
    case Call(_, args) => forall i :: 0 <= i < |args| ==> AllRebindable(args[i], dbSet, provider)
    case Other(_, cs) => forall i :: 0 <= i < |cs| ==> AllRebindable(cs[i], dbSet, provider)
  }

  /** `b` is `a` with each entity root replaced by its rebuilt node, everything else kept. */
  predicate Rebound(a: Expr, b: Expr, dbSet: DbSet, provider: Provider) {
    match a
    case Root(q) =>
      if q.cls.isEntityRoot then
        var n := CreateQueryWithNewProvider(q, dbSet, provider);
        n.Ok? && b == Root(n.value)
      else b == a
    case Call(m, xs) =>
      b.Call? && b.name == m && |b.args| == |xs| &&
      forall i :: 0 <= i < |xs| ==> Rebound(xs[i], b.args[i], dbSet, provider)
    case Other(k, xs) =>
      b.Other? && b.kind == k && |b.children| == |xs| &&
      forall i :: 0 <= i < |xs| ==> Rebound(xs[i], b.children[i], dbSet, provider)
  }

  lemma {:induction false} SubstituteAllAt(es: seq<Expr>, dbSet: DbSet, provider: Provider)
    ensures SubstituteAll(es, dbSet, provider).Ok? <==>
      forall i :: 0 <= i < |es| ==> Substitute(es[i], dbSet, provider).Ok?
    ensures SubstituteAll(es, dbSet, provider).Ok? ==>
      var xs := SubstituteAll(es, dbSet, provider).value;
      |xs| == |es| && forall i :: 0 <= i < |es| ==> Substitute(es[i], dbSet, provider) == Ok(xs[i])
    decreases |es|
  {
    if es != [] {
      var init := es[..|es| - 1];
      SubstituteAllAt(init, dbSet, provider);
      assert forall i :: 0 <= i < |init| ==> init[i] == es[i];
    }
  }

  /** The walk succeeds exactly when every entity root can be rebuilt, and then it rebinds
      each of them and keeps every other node: the two directions of "every root is replaced". */
  lemma {:induction false} SubstituteMeaning(e: Expr, dbSet: DbSet, provider: Provider)
    ensures Substitute(e, dbSet, provider).Ok? <==> AllRebindable(e, dbSet, provider)
    ensures Substitute(e, dbSet, provider).Ok? ==> Rebound(e, Substitute(e, dbSet, provider).value, dbSet, provider)
  {
    match e
    case Root(q) =>
    case Call(m, args) =>
      SubstituteAllAt(args, dbSet, provider);
      forall i | 0 <= i < |args| { SubstituteMeaning(args[i], dbSet, provider); }
    case Other(k, cs) =>
      SubstituteAllAt(cs, dbSet, provider);
      forall i | 0 <= i < |cs| { SubstituteMeaning(cs[i], dbSet, provider); }
  }

  /** A tree with no entity root comes back unchanged. */
  lemma {:induction false} SubstituteWithoutEntityRoots(e: Expr, dbSet: DbSet, provider: Provider)
    requires !ContainsEntityRoot(e)
    ensures Substitute(e, dbSet, provider) == Ok(e)
  {
    match e
    case Root(q) =>
    case Call(m, args) =>
      SubstituteAllAt(args, dbSet, provider);
      forall i | 0 <= i < |args| ensures Substitute(args[i], dbSet, provider) == Ok(args[i]) {
        SubstituteWithoutEntityRoots(args[i], dbSet, provider);
      }
      assert SubstituteAll(args, dbSet, provider).value == args;
    case Other(k, cs) =>
      SubstituteAllAt(cs, dbSet, provider);
      forall i | 0 <= i < |cs| ensures Substitute(cs[i], dbSet, provider) == Ok(cs[i]) {
        SubstituteWithoutEntityRoots(cs[i], dbSet, provider);
      }
      assert SubstituteAll(cs, dbSet, provider).value == cs;
  }

  /** A failing walk stopped at an entity root. */
  lemma {:induction false} SubstituteFailsAtEntityRoot(e: Expr, dbSet: DbSet, provider: Provider)
    requires Substitute(e, dbSet, provider).Fail?
    ensures ContainsEntityRoot(e)
  {
    if !ContainsEntityRoot(e) {
      SubstituteWithoutEntityRoots(e, dbSet, provider);
    }
  }

  lemma {:induction false} SubstituteAllPrefixFails(es: seq<Expr>, n: nat, dbSet: DbSet, provider: Provider)
    requires n <= |es| && SubstituteAll(es[..n], dbSet, provider).Fail?
    ensures SubstituteAll(es, dbSet, provider) == SubstituteAll(es[..n], dbSet, provider)
    decreases |es| - n
  {
    if n < |es| {
      assert es[..n + 1][..n] == es[..n];
      SubstituteAllPrefixFails(es, n + 1, dbSet, provider);
    } else {
      assert es[..n] == es;
    }
  }

  /** The static `ReplaceProvider`: null checks in order, one walk (whose failure propagates),
      the "replaced" check, then the null check. */
  function ReplaceProviderResult(query: Option<Expr>, dbSet: Option<DbSet>, provider: Option<Provider>): (r: Result<Expr>)
    ensures query.None? ==> r == Fail(ArgumentNull("query"))
    ensures query.Some? && dbSet.None? ==> r == Fail(ArgumentNull("set"))
    ensures query.Some? && dbSet.Some? && provider.None? ==> r == Fail(ArgumentNull("provider"))
    ensures query.Some? && dbSet.Some? && provider.Some? && !ContainsEntityRoot(query.value) ==>
      r == Fail(Argument("query", NotFromEntityFramework))
    ensures query.Some? && dbSet.Some? && provider.Some? && ContainsEntityRoot(query.value) ==>
      (r.Ok? <==> AllRebindable(query.value, dbSet.value, provider.value))
    ensures r.Ok? ==> Rebound(query.value, r.value, dbSet.value, provider.value)
    ensures r != Fail(Argument("query", NullReplacement))
  {
    if query.None? then Fail(ArgumentNull("query"))
    else if dbSet.None? then Fail(ArgumentNull("set"))
    else if provider.None? then Fail(ArgumentNull("provider"))
    else
      SubstituteMeaning(query.value, dbSet.value, provider.value);
      if !ContainsEntityRoot(query.value) then
        SubstituteWithoutEntityRoots(query.value, dbSet.value, provider.value);
        Fail(Argument("query", NotFromEntityFramework))
      else
        match Substitute(query.value, dbSet.value, provider.value)
        case Fail(err) =>
          assert !err.Argument? by { NoWalkErrorIsArgument(query.value, dbSet.value, provider.value); }
          Fail(err)
        case Ok(t) => Ok(t)
  }

  /** The walk only raises reflection and cast errors, never an `ArgumentException`. */
  lemma NoWalkErrorIsArgument(e: Expr, dbSet: DbSet, provider: Provider)
    requires Substitute(e, dbSet, provider).Fail?
    ensures !Substitute(e, dbSet, provider).error.Argument?
  {
    SubstituteMeaning(e, dbSet, provider);
    FirstFailureIsRebuildError(e, dbSet, provider);
  }

  lemma {:induction false} FirstFailureIsRebuildError(e: Expr, dbSet: DbSet, provider: Provider)
    requires Substitute(e, dbSet, provider).Fail?
    ensures Substitute(e, dbSet, provider).error in {InvalidOperation(NoConstructor), InvalidCast, AmbiguousMatch}
    decreases e, 1
  {
    match e
    case Root(q) =>
      var c := GetConstructorWithMostParameters(q, provider);
      if c.Ok? {
        var a := ArgumentValues(c.value.params, q, dbSet, provider);
        if a.Fail? {
          var i :| 0 <= i < |c.value.params| && ParameterValue(c.value.params[i], q, dbSet, provider) == Fail(a.error) &&
            forall j :: 0 <= j < i ==> ParameterValue(c.value.params[j], q, dbSet, provider).Ok?;
        }
      }
    case Call(m, args) => FirstFailureInAll(args, dbSet, provider);
    case Other(k, cs) => FirstFailureInAll(cs, dbSet, provider);
  }

  lemma {:induction false} FirstFailureInAll(es: seq<Expr>, dbSet: DbSet, provider: Provider)
    requires SubstituteAll(es, dbSet, provider).Fail?
    ensures SubstituteAll(es, dbSet, provider).error in {InvalidOperation(NoConstructor), InvalidCast, AmbiguousMatch}
    decreases es, 0
  {
    var init := es[..|es| - 1];
    if SubstituteAll(init, dbSet, provider).Fail? {
      FirstFailureInAll(init, dbSet, provider);
    } else {
      FirstFailureIsRebuildError(es[|es| - 1], dbSet, provider);
    }
  }

  /** The visitor object. `query` is stored by the constructor and never read. */
  class EntityQueryRootReplaceVisitor {
    const query: Expr
    const dbSet: DbSet
    const provider: Provider
    var queryWasReplaced: bool

    constructor (query: Expr, dbSet: DbSet, provider: Provider)
      ensures this.query == query && this.dbSet == dbSet && this.provider == provider
      ensures !queryWasReplaced
    {
      this.query := query;
      this.dbSet := dbSet;
      this.provider := provider;
      queryWasReplaced := false;
    }

    /** The override of `Visit`: the flag is raised at each entity root before it is rebuilt,
        so it is raised whenever the walk fails. */
    method Visit(node: Option<Expr>) returns (r: Result<Option<Expr>>)
      modifies this
      ensures node.None? ==> r == Ok(None) && queryWasReplaced == old(queryWasReplaced)
      ensures node.Some? ==> r == (match Substitute(node.value, dbSet, provider)
                                   case Ok(t) => Ok(Some(t))
                                   case Fail(err) => Fail(err))
      ensures node.Some? && r.Ok? ==> queryWasReplaced == (old(queryWasReplaced) || ContainsEntityRoot(node.value))
      ensures r.Fail? ==> queryWasReplaced
    {
      if node.None? {
        return Ok(None);
      }
      var t := VisitNode(node.value);
      if t.Fail? {
        return Fail(t.error);
      }
      return Ok(Some(t.value));
    }

    method VisitNode(e: Expr) returns (r: Result<Expr>)
      modifies this
      decreases e, 1
      ensures r == Substitute(e, dbSet, provider)
      ensures r.Ok? ==> queryWasReplaced == (old(queryWasReplaced) || ContainsEntityRoot(e))
      ensures r.Fail? ==> queryWasReplaced
    {
      match e {
        case Root(q) =>
          if q.cls.isEntityRoot {
            queryWasReplaced := true;
            var n := CreateQueryWithNewProvider(q, dbSet, provider);
            if n.Fail? {
              return Fail(n.error);
            }
            r := Ok(Root(n.value));
          } else {
            r := Ok(e);
          }
        case Call(m, args) =>
          var xs := VisitChildren(args);
          if xs.Fail? {
            return Fail(xs.error);
          }
          r := Ok(Call(m, xs.value));
        case Other(k, cs) =>
          var xs := VisitChildren(cs);
          if xs.Fail? {
            return Fail(xs.error);
          }
          r := Ok(Other(k, xs.value));
      }
    }

    method VisitChildren(cs: seq<Expr>) returns (r: Result<seq<Expr>>)
      modifies this
      decreases cs, 0
      ensures r == SubstituteAll(cs, dbSet, provider)
      ensures r.Ok? ==> queryWasReplaced == (old(queryWasReplaced) || exists j :: 0 <= j < |cs| && ContainsEntityRoot(cs[j]))
      ensures r.Fail? ==> queryWasReplaced
    {
      var xs := [];
      var i := 0;
      while i < |cs|
        invariant 0 <= i <= |cs|
        invariant SubstituteAll(cs[..i], dbSet, provider) == Ok(xs)
        invariant queryWasReplaced == (old(queryWasReplaced) || exists j :: 0 <= j < i && ContainsEntityRoot(cs[j]))
      {
        var x := VisitNode(cs[i]);
        assert cs[..i + 1][..i] == cs[..i];
        if x.Fail? {
          SubstituteAllPrefixFails(cs, i + 1, dbSet, provider);
          return Fail(x.error);
        }
        xs := xs + [x.value];
        i := i + 1;
      }
      assert cs[..i] == cs;
      r := Ok(xs);
    }
  }

  /** `EntityQueryRootExpressionReplaceVisitor.ReplaceProvider`. */
  method ReplaceProvider(query: Option<Expr>, dbSet: Option<DbSet>, provider: Option<Provider>) returns (r: Result<Expr>)
    ensures r == ReplaceProviderResult(query, dbSet, provider)
  {
    if query.None? { return Fail(ArgumentNull("query")); }
    if dbSet.None? { return Fail(ArgumentNull("set")); }
    if provider.None? { return Fail(ArgumentNull("provider")); }
    var visitor := new EntityQueryRootReplaceVisitor(query.value, dbSet.value, provider.value);
    var replaced := visitor.Visit(query);
    if replaced.Fail? {
      SubstituteFailsAtEntityRoot(query.value, dbSet.value, provider.value);
      return Fail(replaced.error);
    }
    if !visitor.queryWasReplaced {
      return Fail(Argument("query", NotFromEntityFramework));
    }
    if replaced.value.None? {
      return Fail(Argument("query", NullReplacement));
    }
    return Ok(replaced.value.value);
  }

  /** On a plain `EntityQueryRootExpression` node and an async provider, the reflective rebuild
      gives exactly the shared root of `QueryRootExpressionReplaceVisitor`. */
  lemma RebuildAgreesWithSharedRoot(q: QueryRoot, dbSet: DbSet, provider: Provider)
    requires q.cls == EntityQueryRootClass && provider.isAsync
    ensures CreateQueryWithNewProvider(q, dbSet, provider) == Ok(QueryRootReplace.SetQueryRoot(dbSet, provider))
  {
    var ctors := EntityQueryRootClass.ctors;
    assert TakesAsyncProvider(ctors[0]) by { assert ctors[0].params[0].paramType == AsyncQueryProviderType; }
    assert !TakesAsyncProvider(ctors[1]);
    assert Candidates(ctors[1..], provider) == [];
    assert Candidates(ctors, provider) == [ctors[0]];
    assert GetConstructorWithMostParameters(q, provider) == Ok(ctors[0]);
    var args := [ProviderRef(provider), EntityTypeRef(dbSet.entityType)];
    assert ctors[0].params == [AsyncProviderParam, EntityTypeParam];
    assert ParameterValue(AsyncProviderParam, q, dbSet, provider) == Ok(ProviderRef(provider));
    assert ParameterValue(EntityTypeParam, q, dbSet, provider) == Ok(EntityTypeRef(dbSet.entityType));
    var a := ArgumentValues(ctors[0].params, q, dbSet, provider);
    assert forall i :: 0 <= i < 2 ==> ParameterValue(ctors[0].params[i], q, dbSet, provider).Ok?;
    assert |a.value| == 2 && a.value[0] == args[0] && a.value[1] == args[1];
    assert a.value == args;
    assert a == Ok(args);
  }

  /** With a provider that is not async, every constructor is a candidate, the two-parameter
      one wins, and casting the provider to `IAsyncQueryProvider` fails. */
  lemma RebuildWithSyncProviderFails(q: QueryRoot, dbSet: DbSet, provider: Provider)
    requires q.cls == EntityQueryRootClass && !provider.isAsync
    ensures CreateQueryWithNewProvider(q, dbSet, provider) == Fail(InvalidCast)
  {
    var ctors := EntityQueryRootClass.ctors;
    assert Candidates(ctors, provider) == ctors;
    assert LongestFirst(ctors) == 0 by { assert LongestFirst(ctors[1..]) == 0; }
  }

  /** Every root of the tree is a plain `EntityQueryRootExpression`. */
  predicate OnlyEntityQueryRoots(e: Expr) {
    match e
    case Root(q) => q.cls == EntityQueryRootClass
    case Call(_, args) => forall i :: 0 <= i < |args| ==> OnlyEntityQueryRoots(args[i])
    case Other(_, cs) => forall i :: 0 <= i < |cs| ==> OnlyEntityQueryRoots(cs[i])
  }

  lemma {:induction false} SubstituteAgreesWithReplaceAll(e: Expr, dbSet: DbSet, provider: Provider)
    requires OnlyEntityQueryRoots(e) && provider.isAsync
    ensures Substitute(e, dbSet, provider) == Ok(QueryRootReplace.ReplaceAll(e, QueryRootReplace.SetQueryRoot(dbSet, provider)))
    ensures ContainsEntityRoot(e) == ContainsRoot(e)
  {
    var r := QueryRootReplace.SetQueryRoot(dbSet, provider);
    match e
    case Root(q) => RebuildAgreesWithSharedRoot(q, dbSet, provider);
    case Call(m, args) =>
      SubstituteAllAt(args, dbSet, provider);
      forall i | 0 <= i < |args|
        ensures Substitute(args[i], dbSet, provider) == Ok(QueryRootReplace.ReplaceAll(args[i], r))
        ensures ContainsEntityRoot(args[i]) == ContainsRoot(args[i])
      {
        SubstituteAgreesWithReplaceAll(args[i], dbSet, provider);
      }
      assert SubstituteAll(args, dbSet, provider).value == QueryRootReplace.ReplaceAll(e, r).args;
    case Other(k, cs) =>
      SubstituteAllAt(cs, dbSet, provider);
      forall i | 0 <= i < |cs|
        ensures Substitute(cs[i], dbSet, provider) == Ok(QueryRootReplace.ReplaceAll(cs[i], r))
        ensures ContainsEntityRoot(cs[i]) == ContainsRoot(cs[i])
      {
        SubstituteAgreesWithReplaceAll(cs[i], dbSet, provider);
      }
      assert SubstituteAll(cs, dbSet, provider).value == QueryRootReplace.ReplaceAll(e, r).children;
  }

  /** For a query whose roots are plain entity roots and an async provider, the reflective
      visitor and the shared-root visitor of the same revision produce the same result. */
  lemma ReplaceProviderAgreesWithSharedRootVisitor(query: Expr, dbSet: DbSet, provider: Provider)
    requires OnlyEntityQueryRoots(query) && provider.isAsync
    ensures ReplaceProviderResult(Some(query), Some(dbSet), Some(provider)) ==
            QueryRootReplace.ReplaceProviderResult(Some(query), Some(dbSet), Some(provider))
  {
    SubstituteAgreesWithReplaceAll(query, dbSet, provider);
  }
}
