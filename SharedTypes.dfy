/** `SharedTypeExtensions`: finding the element type of a sequence type over a graph of CLR
    types. A type knows its generic shape, its generic arguments, its array element type, its
    base type and the interfaces it implements. */
module SharedTypes {
  import opened Errors

  /** Whether a type is generic, and how: `Definition` is an open definition such as
      `IEnumerable<>`; `Constructed(d)` is a closed type built from definition `d`. */
  datatype Generic = NonGeneric | Definition | Constructed(definition: Type)

  /** `interfaces` are all interfaces the type implements (`ImplementedInterfaces`), in the
      order reflection reports them. `typeArgs` are the `GenericTypeArguments`. */
  datatype Type = Type(
    name: string,
    isInterface: bool,
    isValueType: bool,
    generic: Generic,
    typeArgs: seq<Type>,
    elementType: Option<Type>,
    baseType: Option<Type>,
    interfaces: seq<Type>)

  /** `IEnumerable<>` and `IAsyncEnumerable<>`, the two definitions a sequence can implement. */
  const IEnumerableDefinition := Type("IEnumerable`1", true, false, Definition, [], None, None, [])
  const IAsyncEnumerableDefinition := Type("IAsyncEnumerable`1", true, false, Definition, [], None, None, [])

  /** `t.IsGenericType && t.GetGenericTypeDefinition() == target`. */
  predicate HasDefinition(t: Type, target: Type) {
    match t.generic
    case NonGeneric => false
    case Definition => t == target
    case Constructed(d) => d == target
  }

  /** How many base types lie above `t`. */
  function Depth(t: Type): nat {
    if t.baseType.None? then 0 else 1 + Depth(t.baseType.value)
  }

  /** The base-type chain above `t`, nearest first. */
  function BaseChain(t: Type): seq<Type>
    decreases Depth(t)
  {
    if t.baseType.None? then [] else [t.baseType.value] + BaseChain(t.baseType.value)
  }

  /** The chain starting at a nullable base type. */
  function ChainFrom(b: Option<Type>): seq<Type> {
    if b.None? then [] else [b.value] + BaseChain(b.value)
  }

  /** The chain has one entry per level, each entry is the base type of the one before it,
      the last has no base type, and `t` itself is never in it. */
  lemma {:induction false} BaseChainShape(t: Type)
    ensures |BaseChain(t)| == Depth(t)
    ensures forall i :: 0 <= i < |BaseChain(t)| ==> Depth(BaseChain(t)[i]) == Depth(t) - 1 - i
    ensures |BaseChain(t)| > 0 ==> t.baseType == Some(BaseChain(t)[0])
    ensures forall i :: 0 <= i < |BaseChain(t)| - 1 ==> BaseChain(t)[i].baseType == Some(BaseChain(t)[i + 1])
    ensures |BaseChain(t)| > 0 ==> BaseChain(t)[|BaseChain(t)| - 1].baseType.None?
    ensures t !in BaseChain(t)
    decreases Depth(t)
  {
    if t.baseType.Some? {
      var b := t.baseType.value;
      BaseChainShape(b);
      var c := BaseChain(t);
      assert c == [b] + BaseChain(b);
      assert forall i :: 1 <= i < |c| ==> c[i] == BaseChain(b)[i - 1];
    }
  }

  /** `GetBaseTypes`: walk `BaseType` until null. */
  method GetBaseTypes(t: Type) returns (bases: seq<Type>)
    ensures bases == BaseChain(t)
  {
    bases := [];
    var b := t.baseType;
    while b.Some?
      invariant bases + ChainFrom(b) == BaseChain(t)
      decreases if b.None? then 0 else 1 + Depth(b.value)
    {
      bases := bases + [b.value];
      b := b.value.baseType;
    }
  }

  /** The entries of `ts` whose generic definition is `target`, in order. */
  function Matching(ts: seq<Type>, target: Type): (r: seq<Type>)
    ensures forall x :: x in r <==> x in ts && HasDefinition(x, target)
    ensures |r| <= |ts|
  {
    if ts == [] then []
    else
      var init := ts[..|ts| - 1];
      var last := ts[|ts| - 1];
      var rest := Matching(init, target);
      assert forall x :: x in ts <==> x in init || x == last by { assert ts == init + [last]; }
      if HasDefinition(last, target) then rest + [last] else rest
  }

  /** Where implementations are looked for: the implemented interfaces when the target is an
      interface, the base-type chain otherwise. */
  function Candidates(t: Type, target: Type): seq<Type> {
    if target.isInterface then t.interfaces else BaseChain(t)
  }

  /** What `GetGenericTypeImplementations` yields: nothing for an open definition; otherwise
      the matching candidates in order, and then `t` itself when it matches. */
  function Implementations(t: Type, target: Type): seq<Type> {
    if t.generic.Definition? then []
    else Matching(Candidates(t, target), target) + (if HasDefinition(t, target) then [t] else [])
  }

  method GetGenericTypeImplementations(t: Type, target: Type) returns (impls: seq<Type>)
    ensures impls == Implementations(t, target)
  {
    impls := [];
    if !t.generic.Definition? {
      var bases: seq<Type>;
      if target.isInterface {
        bases := t.interfaces;
      } else {
        bases := GetBaseTypes(t);
      }
      var i := 0;
      while i < |bases|
        invariant 0 <= i <= |bases|
        invariant impls == Matching(bases[..i], target)
      {
        assert bases[..i + 1][..i] == bases[..i];
        if HasDefinition(bases[i], target) {
          impls := impls + [bases[i]];
        }
        i := i + 1;
      }
      assert bases[..i] == bases;
      if HasDefinition(t, target) {
        impls := impls + [t];
      }
    }
  }

  /** Every implementation has the target as its definition and comes from the candidates or
      is `t` itself, `t` coming last; an open definition has none. */
  lemma ImplementationsMeaning(t: Type, target: Type)
    ensures t.generic.Definition? ==> Implementations(t, target) == []
    ensures !t.generic.Definition? ==> forall x :: x in Implementations(t, target) <==>
      HasDefinition(x, target) && (x in Candidates(t, target) || x == t)
    ensures !t.generic.Definition? && HasDefinition(t, target) ==>
      var impls := Implementations(t, target);
      |impls| > 0 && impls[|impls| - 1] == t
  {
  }

  /** What `TryGetElementType` returns: the first generic argument of the single
      implementation, or nothing for an open definition, for no implementation, for two or
      more, or for an implementation without generic arguments. */
  function ElementTypeOf(t: Type, target: Type): Option<Type> {
    if t.generic.Definition? then None
    else
      var impls := Implementations(t, target);
      if |impls| != 1 || |impls[0].typeArgs| == 0 then None else Some(impls[0].typeArgs[0])
  }

  /** The `foreach` keeps the first implementation and gives up at the second. */
  method TryGetElementType(t: Type, target: Type) returns (r: Option<Type>)
    ensures r == ElementTypeOf(t, target)
  {
    if t.generic.Definition? {
      return None;
    }
    var types := GetGenericTypeImplementations(t, target);
    var single: Option<Type> := None;
    var i := 0;
    while i < |types|
      invariant 0 <= i <= 1 && i <= |types|
      invariant single == if i == 0 then None else Some(types[0])
    {
      if single.None? {
        single := Some(types[i]);
      } else {
        single := None;
        break;
      }
      i := i + 1;
    }
    if single.None? || |single.value.typeArgs| == 0 {
      return None;
    }
    return Some(single.value.typeArgs[0]);
  }

  /** An element type exists exactly when a single implementation of the target exists, and it
      is that implementation's first argument. */
  lemma ElementTypeMeaning(t: Type, target: Type, x: Type)
    ensures ElementTypeOf(t, target) == Some(x) <==>
      exists impl :: Implementations(t, target) == [impl] && |impl.typeArgs| > 0 && impl.typeArgs[0] == x
    ensures |Implementations(t, target)| != 1 ==> ElementTypeOf(t, target).None?
  {
    if ElementTypeOf(t, target) == Some(x) {
      var impls := Implementations(t, target);
      assert impls == [impls[0]];
    }
  }

  /** `TryGetSequenceType`: the `IEnumerable<>` element type if there is one, else the
      `IAsyncEnumerable<>` one. */
  function SequenceTypeOf(t: Type): (r: Option<Type>)
    ensures ElementTypeOf(t, IEnumerableDefinition).Some? ==> r == ElementTypeOf(t, IEnumerableDefinition)
    ensures ElementTypeOf(t, IEnumerableDefinition).None? ==> r == ElementTypeOf(t, IAsyncEnumerableDefinition)
  {
    var e := ElementTypeOf(t, IEnumerableDefinition);
    if e.Some? then e else ElementTypeOf(t, IAsyncEnumerableDefinition)
  }

  /** `t` has exactly one implementation of `target`, and its first generic argument is `x`. */
  ghost predicate SingleImplementation(t: Type, target: Type, x: Type) {
    exists impl :: Implementations(t, target) == [impl] && |impl.typeArgs| > 0 && impl.typeArgs[0] == x
  }

  /** The sequence type is `x` exactly when `IEnumerable<x>` is the one `IEnumerable<>`
      implementation, or when there is no usable `IEnumerable<>` implementation and
      `IAsyncEnumerable<x>` is the one `IAsyncEnumerable<>` implementation. */
  lemma SequenceTypeMeaning(t: Type, x: Type)
    ensures SequenceTypeOf(t) == Some(x) <==>
      SingleImplementation(t, IEnumerableDefinition, x) ||
      ((forall y :: !SingleImplementation(t, IEnumerableDefinition, y)) && SingleImplementation(t, IAsyncEnumerableDefinition, x))
  {
    ElementTypeMeaning(t, IEnumerableDefinition, x);
    ElementTypeMeaning(t, IAsyncEnumerableDefinition, x);
    var e := ElementTypeOf(t, IEnumerableDefinition);
    if e.Some? {
      ElementTypeMeaning(t, IEnumerableDefinition, e.value);
      assert SingleImplementation(t, IEnumerableDefinition, e.value);
      assert SequenceTypeOf(t) == e;
    } else {
      forall y
        ensures !SingleImplementation(t, IEnumerableDefinition, y)
      {
        ElementTypeMeaning(t, IEnumerableDefinition, y);
      }
    }
  }

  method TryGetSequenceType(t: Type) returns (r: Option<Type>)
    ensures r == SequenceTypeOf(t)
  {
    r := TryGetElementType(t, IEnumerableDefinition);
    if r.None? {
      r := TryGetElementType(t, IAsyncEnumerableDefinition);
    }
  }

  /** `GetSequenceType`: the sequence type, or `ArgumentException` on "type". */
  method GetSequenceType(t: Type) returns (r: Result<Type>)
    ensures r.Ok? <==> SequenceTypeOf(t).Some?
    ensures r.Ok? ==> r.value == SequenceTypeOf(t).value
    ensures r.Fail? ==> r.error == Argument("type", NotACollection)
  {
    var s := TryGetSequenceType(t);
    if s.None? {
      return Fail(Argument("type", NotACollection));
    }
    return Ok(s.value);
  }

  // Sample types for the worked cases below.
  const Int32 := Type("Int32", false, true, NonGeneric, [], None, None, [])
  const StringType := Type("String", false, false, NonGeneric, [], None, None, [])

  /** The closed interface `d<arg>`. */
  function Closed(d: Type, arg: Type): Type {
    Type(d.name, true, false, Constructed(d), [arg], None, None, [])
  }

  /** A class implementing exactly the given interfaces. */
  function ClassWith(name: string, interfaces: seq<Type>): Type {
    Type(name, false, false, NonGeneric, [], None, None, interfaces)
  }

  /** A list of integers has element type `Int32`. */
  lemma ListOfIntHasElementType()
    ensures SequenceTypeOf(ClassWith("List", [Closed(IEnumerableDefinition, Int32)])) == Some(Int32)
  {
    var t := ClassWith("List", [Closed(IEnumerableDefinition, Int32)]);
    assert Matching(t.interfaces, IEnumerableDefinition) == [Closed(IEnumerableDefinition, Int32)];
    assert Implementations(t, IEnumerableDefinition) == [Closed(IEnumerableDefinition, Int32)];
  }

  /** Two `IEnumerable<>` implementations make the element type ambiguous, and no
      `IAsyncEnumerable<>` fallback applies. */
  lemma TwoImplementationsHaveNoElementType()
    ensures SequenceTypeOf(ClassWith("Both", [Closed(IEnumerableDefinition, Int32), Closed(IEnumerableDefinition, StringType)])).None?
  {
    var t := ClassWith("Both", [Closed(IEnumerableDefinition, Int32), Closed(IEnumerableDefinition, StringType)]);
    var ints := Closed(IEnumerableDefinition, Int32);
    var strs := Closed(IEnumerableDefinition, StringType);
    assert t.interfaces[..1] == [ints];
    assert Matching(t.interfaces, IEnumerableDefinition) == [ints, strs];
    assert Matching([ints], IAsyncEnumerableDefinition) == [];
    assert Matching(t.interfaces, IAsyncEnumerableDefinition) == [];
  }

  /** A type that is only an async sequence falls back to `IAsyncEnumerable<>`. */
  lemma AsyncOnlyFallsBack()
    ensures SequenceTypeOf(ClassWith("Stream", [Closed(IAsyncEnumerableDefinition, Int32)])) == Some(Int32)
  {
    var t := ClassWith("Stream", [Closed(IAsyncEnumerableDefinition, Int32)]);
    assert Matching(t.interfaces, IEnumerableDefinition) == [];
    assert Matching(t.interfaces, IAsyncEnumerableDefinition) == [Closed(IAsyncEnumerableDefinition, Int32)];
  }
}
