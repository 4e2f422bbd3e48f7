/** The few runtime types and conversion rules of the CLR that decide whether the query
    context's reflective calls (`MethodInfo.Invoke` with a generic argument, then a cast of the
    result to `TResult`) succeed. */
module ClrTypes {
  import opened Errors
  import opened SharedTypes

  const ObjectType := Type("Object", false, false, NonGeneric, [], None, None, [])
  const NonGenericEnumerable := Type("IEnumerable", true, false, NonGeneric, [], None, None, [])
  const CharType := Type("Char", false, true, NonGeneric, [], None, Some(ObjectType), [])

  /** `string` is a reference type and an `IEnumerable<char>`. */
  const StringClass := Type("String", false, false, NonGeneric, [], None, Some(ObjectType),
    [Closed(IEnumerableDefinition, CharType), NonGenericEnumerable])

  const TaskType := Type("Task", false, false, NonGeneric, [], None, Some(ObjectType), [])
  const TaskDefinition := Type("Task`1", false, false, Definition, [], None, Some(TaskType), [])
  const ListDefinition := Type("List`1", false, false, Definition, [], None, Some(ObjectType), [])
  const AutoDisposingEnumerableDefinition := Type("AutoDisposingEnumerable`1", false, false, Definition, [], None, Some(ObjectType), [])
  const AutoDisposingAsyncEnumerableDefinition := Type("AutoDisposingAsyncEnumerable`1", false, false, Definition, [], None, Some(ObjectType), [])

  function EnumerableOf(t: Type): Type { Closed(IEnumerableDefinition, t) }
  function AsyncEnumerableOf(t: Type): Type { Closed(IAsyncEnumerableDefinition, t) }
  function TaskOf(t: Type): Type { Type("Task`1", false, false, Constructed(TaskDefinition), [t], None, Some(TaskType), []) }
  function ArrayOf(t: Type): Type {
    Type(t.name + "[]", false, false, NonGeneric, [], Some(t), Some(ObjectType), [EnumerableOf(t), NonGenericEnumerable])
  }

  /** `List<t>`, with the interfaces the model distinguishes. */
  function ListOf(t: Type): Type {
    Type("List`1", false, false, Constructed(ListDefinition), [t], None, Some(ObjectType), [EnumerableOf(t), NonGenericEnumerable])
  }

  /** The runtime types of the two wrappers. */
  function AutoDisposingEnumerableOf(t: Type): Type {
    Type("AutoDisposingEnumerable`1", false, false, Constructed(AutoDisposingEnumerableDefinition), [t], None, Some(ObjectType),
      [EnumerableOf(t), NonGenericEnumerable])
  }

  function AutoDisposingAsyncEnumerableOf(t: Type): Type {
    Type("AutoDisposingAsyncEnumerable`1", false, false, Constructed(AutoDisposingAsyncEnumerableDefinition), [t], None, Some(ObjectType),
      [AsyncEnumerableOf(t)])
  }

  /** An identity or reference conversion from `a` to `b`: `b` is `a`, or `a` is a reference
      type and `b` is `object`, one of its base classes or one of its interfaces. */
  predicate ReferenceConvertible(a: Type, b: Type) {
    a == b || (!a.isValueType && (b == ObjectType || b in BaseChain(a) || b in a.interfaces))
  }

  /** A value of runtime type `t` can be used as `d<elem>`, where `d` is a covariant interface
      (`IEnumerable<out T>`, `IAsyncEnumerable<out T>`): `t` implements some `d<x>` whose `x`
      converts to `elem` by reference. A value-type `x` therefore only matches itself. */
  predicate ConvertibleToSequenceOf(t: Type, d: Type, elem: Type) {
    exists i :: i in t.interfaces && HasDefinition(i, d) && |i.typeArgs| > 0 && ReferenceConvertible(i.typeArgs[0], elem)
  }

  /** A cast `(target)value` of a value whose runtime type is `t`. */
  predicate CastSucceeds(t: Type, target: Type) {
    ReferenceConvertible(t, target) ||
    (target.generic.Constructed? && |target.typeArgs| > 0 &&
     (target.generic.definition == IEnumerableDefinition || target.generic.definition == IAsyncEnumerableDefinition) &&
     ConvertibleToSequenceOf(t, target.generic.definition, target.typeArgs[0]))
  }

  /** The element type the query context wraps a sequence result with: the first generic
      argument if `TResult` is generic, else its array element type, else `object`. */
  function SequenceElementType(resultType: Type): Type {
    if resultType.generic != NonGeneric && |resultType.typeArgs| > 0 then resultType.typeArgs[0]
    else if resultType.elementType.Some? then resultType.elementType.value
    else ObjectType
  }

  /** The element type the query context wraps a task result with: the first generic argument
      if `TResult` is generic, else `object`. */
  function TaskElementType(resultType: Type): Type {
    if resultType.generic != NonGeneric && |resultType.typeArgs| > 0 then resultType.typeArgs[0]
    else ObjectType
  }

  /** The element-type rules on the result types that occur: `IEnumerable<t>`,
      `IAsyncEnumerable<t>` and `Task<t>` give `t`; an array gives its element type; the
      non-generic `IEnumerable`, `Task` and `string` give `object`. */
  lemma ElementTypeRules(t: Type)
    ensures SequenceElementType(EnumerableOf(t)) == t
    ensures SequenceElementType(AsyncEnumerableOf(t)) == t
    ensures SequenceElementType(ArrayOf(t)) == t
    ensures SequenceElementType(NonGenericEnumerable) == ObjectType
    ensures SequenceElementType(StringClass) == ObjectType
    ensures TaskElementType(TaskOf(t)) == t
    ensures TaskElementType(TaskType) == ObjectType
  {
  }

  /** A value-type element does not convert covariantly: a `string` cannot be passed as an
      `IEnumerable<object>`, while any sequence of a reference type can. */
  lemma SequenceVariance(t: Type)
    requires !t.isValueType
    ensures !ConvertibleToSequenceOf(StringClass, IEnumerableDefinition, ObjectType)
    ensures ConvertibleToSequenceOf(ListOf(t), IEnumerableDefinition, ObjectType)
    ensures ConvertibleToSequenceOf(ListOf(t), IEnumerableDefinition, t)
  {
    assert EnumerableOf(t) in ListOf(t).interfaces;
    assert StringClass.interfaces == [Closed(IEnumerableDefinition, CharType), NonGenericEnumerable];
  }
}
