/** The query expression tree and the query-root marker nodes, as values.

    A query is an immutable tree. Its leaves of interest are query-root nodes: each is an
    instance of some root class, carrying the values of that class's public properties.
    Method calls (`Queryable.Where(source, predicate)`, ...) and every other node kind
    (lambdas, constants, member accesses, ...) only contribute structure. */
module Expressions {
  import opened Errors

  /** A query provider. `isAsync` tells whether it is an `IAsyncQueryProvider`. */
  datatype Provider = Provider(id: nat, isAsync: bool)

  /** Entity metadata, reduced to the one thing the core needs: the entity's CLR type name. */
  datatype EntityType = EntityType(clrName: string)

  /** A live context's entity set: its metadata and the provider that executes queries on it. */
  datatype DbSet = DbSet(entityType: EntityType, provider: Provider)

  /** A value stored in a property of a root node or passed to a root constructor. */
  datatype Value = Null | ProviderRef(provider: Provider) | EntityTypeRef(entityType: EntityType) | Datum(datum: int)

  /** The declared type of a constructor parameter, as far as the rebinding rule distinguishes it. */
  datatype ParamType = AsyncQueryProviderType | EntityTypeType | OtherType(typeName: string)

  datatype Param = Param(name: string, paramType: ParamType)

  /** A public constructor of a root class: its parameters in declaration order. */
  datatype Ctor = Ctor(params: seq<Param>)

  /** The runtime class of a root node. `isEntityRoot` holds for `EntityQueryRootExpression`
      and its subclasses; other `QueryRootExpression` kinds have it false. `ctors` are the
      public constructors in declaration order. */
  datatype RootClass = RootClass(name: string, isEntityRoot: bool, ctors: seq<Ctor>)

  datatype Property = Property(name: string, value: Value)

  /** A query-root node: its runtime class and its public instance properties with their values. */
  datatype QueryRoot = QueryRoot(cls: RootClass, props: seq<Property>)

  datatype Expr =
    | Root(root: QueryRoot)
    | Call(name: string, args: seq<Expr>)
    | Other(kind: string, children: seq<Expr>)

  /** The tree holds a `QueryRootExpression` somewhere. */
  predicate ContainsRoot(e: Expr) {
    match e
    case Root(_) => true
    case Call(_, args) => exists i :: 0 <= i < |args| && ContainsRoot(args[i])
    case Other(_, cs) => exists i :: 0 <= i < |cs| && ContainsRoot(cs[i])
  }

  /** The tree holds an `EntityQueryRootExpression` somewhere. */
  predicate ContainsEntityRoot(e: Expr) {
    match e
    case Root(q) => q.cls.isEntityRoot
    case Call(_, args) => exists i :: 0 <= i < |args| && ContainsEntityRoot(args[i])
    case Other(_, cs) => exists i :: 0 <= i < |cs| && ContainsEntityRoot(cs[i])
  }

  /** Every root node of the tree is `r`. */
  predicate AllRootsAre(e: Expr, r: QueryRoot) {
    match e
    case Root(q) => q == r
    case Call(_, args) => forall i :: 0 <= i < |args| ==> AllRootsAre(args[i], r)
    case Other(_, cs) => forall i :: 0 <= i < |cs| ==> AllRootsAre(cs[i], r)
  }

  /** `a` and `b` have the same shape and the same non-root nodes; they may differ only in
      which root sits at each root position. */
  predicate AgreeOutsideRoots(a: Expr, b: Expr) {
    match a
    case Root(_) => b.Root?
    case Call(m, xs) =>
      b.Call? && b.name == m && |b.args| == |xs| &&
      forall i :: 0 <= i < |xs| ==> AgreeOutsideRoots(xs[i], b.args[i])
    case Other(k, xs) =>
      b.Other? && b.kind == k && |b.children| == |xs| &&
      forall i :: 0 <= i < |xs| ==> AgreeOutsideRoots(xs[i], b.children[i])
  }

  /** Like `AgreeOutsideRoots`, but only entity-root positions may differ, and each of them
      holds an entity root on both sides. */
  predicate AgreeOutsideEntityRoots(a: Expr, b: Expr) {
    match a
    case Root(q) => if q.cls.isEntityRoot then b.Root? && b.root.cls.isEntityRoot else b == a
    case Call(m, xs) =>
      b.Call? && b.name == m && |b.args| == |xs| &&
      forall i :: 0 <= i < |xs| ==> AgreeOutsideEntityRoots(xs[i], b.args[i])
    case Other(k, xs) =>
      b.Other? && b.kind == k && |b.children| == |xs| &&
      forall i :: 0 <= i < |xs| ==> AgreeOutsideEntityRoots(xs[i], b.children[i])
  }

  /** Case folding of the ASCII letters only. */
  function Lower(c: char): char {
    if 'A' <= c <= 'Z' then (c as int + 32) as char else c
  }

  predicate EqualsIgnoreCase(a: string, b: string) {
    |a| == |b| && forall i :: 0 <= i < |a| ==> Lower(a[i]) == Lower(b[i])
  }

  /** The properties whose name equals `name` ignoring case, in declaration order. */
  function PropertiesNamed(props: seq<Property>, name: string): (r: seq<Property>)
    ensures forall p :: p in r <==> p in props && EqualsIgnoreCase(p.name, name)
    ensures |r| <= |props|
  {
    if props == [] then []
    else
      var rest := PropertiesNamed(props[1..], name);
      assert forall p :: p in props <==> p == props[0] || p in props[1..];
      if EqualsIgnoreCase(props[0].name, name) then [props[0]] + rest else rest
  }

  /** Reflection's `GetProperty(name, Instance | Public | IgnoreCase)`: no property, the one
      property, or `AmbiguousMatchException` when two properties match. */
  function GetProperty(props: seq<Property>, name: string): (r: Result<Option<Property>>)
    ensures r == Ok(None) <==> forall p :: p in props ==> !EqualsIgnoreCase(p.name, name)
    ensures r.Ok? && r.value.Some? ==>
      r.value.value in props && EqualsIgnoreCase(r.value.value.name, name) &&
      forall p :: p in props && EqualsIgnoreCase(p.name, name) ==> p == r.value.value
    ensures r.Fail? ==> r.error == AmbiguousMatch && |PropertiesNamed(props, name)| >= 2
  {
    var found := PropertiesNamed(props, name);
    if |found| == 0 then Ok(None)
    else if |found| == 1 then
      assert found[0] in found;
      Ok(Some(found[0]))
    else
      assert found[0] in found;
      Fail(AmbiguousMatch)
  }

  /** When no property matches `name`, nothing is found. */
  lemma {:induction false} NoneNamed(props: seq<Property>, name: string)
    requires forall j :: 0 <= j < |props| ==> !EqualsIgnoreCase(props[j].name, name)
    ensures PropertiesNamed(props, name) == []
    decreases |props|
  {
    if props != [] {
      NoneNamed(props[1..], name);
    }
  }

  /** When `name` matches the property at `i` and no other, that property is all that matches. */
  lemma {:induction false} OnlyMatchAt(props: seq<Property>, name: string, i: nat)
    requires i < |props|
    requires forall j :: 0 <= j < |props| ==> (EqualsIgnoreCase(props[j].name, name) <==> j == i)
    ensures PropertiesNamed(props, name) == [props[i]]
    decreases |props|
  {
    var rest := PropertiesNamed(props[1..], name);
    if i == 0 {
      NoneNamed(props[1..], name);
    } else {
      OnlyMatchAt(props[1..], name, i - 1);
    }
  }

  /** Properties whose names differ even ignoring case are each found by their own name. */
  lemma DistinctNamesLookUp(props: seq<Property>)
    ensures (forall j, k :: 0 <= j < |props| && 0 <= k < |props| && j != k ==> !EqualsIgnoreCase(props[j].name, props[k].name)) ==>
      forall i :: 0 <= i < |props| ==> GetProperty(props, props[i].name) == Ok(Some(props[i]))
  {
    if forall j, k :: 0 <= j < |props| && 0 <= k < |props| && j != k ==> !EqualsIgnoreCase(props[j].name, props[k].name) {
      forall i | 0 <= i < |props|
        ensures GetProperty(props, props[i].name) == Ok(Some(props[i]))
      {
        OnlyMatchAt(props, props[i].name, i);
      }
    }
  }

  /** `ConstructorInfo.Invoke(args)` on a root class. Root constructors are taken to store each
      argument in the property named after its parameter. So when the parameter names differ
      ignoring case, looking up a parameter's name on the new root (as the rebuild of a later
      root does) gives back the argument it was built with. */
  function Construct(cls: RootClass, ctor: Ctor, args: seq<Value>): (r: QueryRoot)
    requires |args| == |ctor.params|
    ensures r.cls == cls && |r.props| == |args|
    ensures (forall j, k :: 0 <= j < |ctor.params| && 0 <= k < |ctor.params| && j != k ==>
               !EqualsIgnoreCase(ctor.params[j].name, ctor.params[k].name)) ==>
      forall i :: 0 <= i < |args| ==> GetProperty(r.props, ctor.params[i].name) == Ok(Some(Property(ctor.params[i].name, args[i])))
  {
    var props := seq(|args|, i requires 0 <= i < |args| => Property(ctor.params[i].name, args[i]));
    assert forall j :: 0 <= j < |props| ==> props[j].name == ctor.params[j].name;
    DistinctNamesLookUp(props);
    QueryRoot(cls, props)
  }

  const AsyncProviderParam := Param("asyncQueryProvider", AsyncQueryProviderType)
  const EntityTypeParam := Param("entityType", EntityTypeType)

  /** `EntityQueryRootExpression`: constructible from (async provider, entity type) or from the
      entity type alone. */
  const EntityQueryRootClass := RootClass(
    "EntityQueryRootExpression", true,
    [Ctor([AsyncProviderParam, EntityTypeParam]), Ctor([EntityTypeParam])])
}
