/**
 * The parameter-binding vocabulary shared by the criteria: runtime values, the
 * property types the type system resolves, and (type, value) pairs.
 */
module TypedValues {

  /** A runtime value: Java's null, or some object known only by an identity. */
  datatype Value = Null | Object(id: int)

  /** A property type: a basic (single-column) type, or a component type whose
      parts are bound one by one (CompositeType with its subtypes). */
  datatype Type =
    | Basic(name: string)
    | Component(name: string, subtypes: seq<Type>)

  /** TypedValue: a value with the type it is bound as (the entity mode is always POJO). */
  datatype TypedValue = TypedValue(valueType: Type, value: Value)

  /** How many parameters one value of type `t` binds. */
  function Width(t: Type): nat
  {
    if t.Component? then |t.subtypes| else 1
  }

  /** CompositeType.getPropertyValues supplies one entry per subtype for every
      non-null value it is asked to decompose. */
  predicate Decomposable(t: Type, values: seq<Value>, parts: Value -> seq<Value>)
  {
    t.Component? ==>
      forall j :: 0 <= j < |values| && values[j] != Null ==> |parts(values[j])| >= |t.subtypes|
  }

  /** Sub-value `i` of `v`: null for a null value, else part `i` of its decomposition. */
  function SubValue(v: Value, parts: Value -> seq<Value>, i: nat): Value
    requires v != Null ==> i < |parts(v)|
  {
    if v == Null then Null else parts(v)[i]
  }
}
