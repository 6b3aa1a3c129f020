/** Runtime type guards used by the flattener. A JavaScript value that may be
    `undefined` is an `Option<Json>`; `None` is `undefined`. */
module Guards {
  import opened Wrappers
  import opened DotProp
  import opened PrismBeamModel

  /** isSimplePrimitive: the value is a string, a number or a boolean. */
  predicate IsSimplePrimitive(value: Option<Json>)
  {
    value.Some? && (value.value.Str? || value.value.Num? || value.value.Bool?)
  }

  /** The narrowing that the `value is string | number | boolean` guard grants. */
  function AsPrimitive(value: Option<Json>): (r: Primitive)
    requires IsSimplePrimitive(value)
    ensures Some(AsJson(r)) == value
  {
    match value.value
    case Str(s) => PStr(s)
    case Num(n) => PNum(n)
    case Bool(b) => PBool(b)
  }

  /** isSimplePrimitive holds exactly of the defined values that are a
      string, a number or a boolean; undefined, null, objects and arrays fail. */
  lemma IsSimplePrimitiveExactly(value: Option<Json>)
    ensures IsSimplePrimitive(value) <==> exists p :: value == Some(AsJson(p))
    ensures value.None? || value.value.Obj? || value.value.Arr? || value.value.Null? ==> !IsSimplePrimitive(value)
  {
    if IsSimplePrimitive(value) {
      var p := AsPrimitive(value);
      assert value == Some(AsJson(p));
    }
  }

  /** isPrismBeamBaseEntity: the candidate pair is defined. The pair's path is
      a `Path` by typing, so the `typeof path === 'string'` half always holds. */
  predicate IsPrismBeamBaseEntity(value: Option<PathValue>)
  {
    value.Some?
  }
}
