/** The module-level helpers of the interface package: the `abstract_method` decorator and the
    return-type check that the metaclass wraps around every callable. */
module Interface {
  import opened Values

  /** A Python function object. `abstract_method` changes it in place through `setattr`. */
  class FunctionObject {
    /** The `__isabstract__` attribute (absent reads as `False`). */
    var tagged: bool
    /** Its annotations as `get_type_hints` resolves them. */
    const hints: Hints

    constructor (hints: Hints)
      ensures this.hints == hints && !tagged
    {
      this.hints := hints;
      tagged := false;
    }

    /** The function as it sits in a class body: callable, not a `staticmethod`, not yet wrapped. */
    function AsValue(): (v: Value)
      reads this
      ensures IsCallable(v) && !IsStaticMethod(v) && !v.guarded
    {
      Object(true, false, tagged, Some(hints), false)
    }
  }

  /** `abstract_method`: tags the function and hands back the very same object. */
  method AbstractMethod(f: FunctionObject) returns (r: FunctionObject)
    modifies f
    ensures r == f
    ensures IsAbstract(f.AsValue())
    ensures f.tagged
    ensures old(f.tagged) ==> f.AsValue() == old(f.AsValue())
  {
    f.tagged := true;
    r := f;
  }

  /** What the wrapped call itself does: return a value or raise an error of its own (including the
      argument validation error of the inner wrapper). */
  datatype CallResult<V, E> = Returned(value: V) | Raised(error: E)

  /** The errors a guarded call can raise. `MissingReturnHint` and `ReturnTypeMismatch` are the two
      `TypeError`s of the return-type check; `FromCall` passes the call's own error through. */
  datatype GuardError<E> = MissingReturnHint | ReturnTypeMismatch(expected: Hint) | FromCall(error: E)

  /** The values the return-type check lets through for annotation `hint`: falsy values, anything
      when the annotation is the bare `None` object, and instances of the annotated type. */
  predicate ReturnAllowed<V>(v: V, hint: Hint, truthy: V -> bool, isInstance: (V, Hint) -> bool) {
    !truthy(v) || hint == NoneObject || isInstance(v, hint)
  }

  /** One call of the function that `return_type_wrapper` returns. The annotations are read
      before the call; `call` is the wrapped function applied to the arguments, `truthy` is
      Python truthiness and `isInstance` is `isinstance`. */
  function ReturnTypeWrapper<V, E>(hints: Hints, call: () -> CallResult<V, E>,
                                   truthy: V -> bool, isInstance: (V, Hint) -> bool)
    : (r: CallResult<V, GuardError<E>>)
    // no return annotation: TypeError, whatever the call would have done
    ensures ReturnKey !in hints ==> r == Raised(MissingReturnHint)
    // the call's own error propagates unchanged
    ensures ReturnKey in hints && call().Raised? ==> r == Raised(FromCall(call().error))
    // a returned value is passed back unchanged exactly when the check allows it
    ensures r.Returned? <==>
              ReturnKey in hints && call().Returned? &&
              ReturnAllowed(call().value, hints[ReturnKey], truthy, isInstance)
    ensures r.Returned? ==> r.value == call().value
    // a falsy result is never rejected
    ensures ReturnKey in hints && call().Returned? && !truthy(call().value) ==>
              r == Returned(call().value)
    // a truthy result that is not an instance of the annotated type is a TypeError
    ensures ReturnKey in hints && call().Returned? && truthy(call().value) &&
            hints[ReturnKey] != NoneObject && !isInstance(call().value, hints[ReturnKey]) ==>
              r == Raised(ReturnTypeMismatch(hints[ReturnKey]))
  {
    if ReturnKey !in hints then Raised(MissingReturnHint)
    else
      var returnType := hints[ReturnKey];
      match call()
      case Raised(e) => Raised(FromCall(e))
      case Returned(result) =>
        if truthy(result) && returnType != NoneObject && !isInstance(result, returnType) then
          Raised(ReturnTypeMismatch(returnType))
        else
          Returned(result)
  }

  /** The check does not depend on the call when the return annotation is missing: the
      `TypeError` is raised before the wrapped function runs. */
  lemma MissingHintIgnoresCall<V, E>(hints: Hints, call1: () -> CallResult<V, E>,
                                     call2: () -> CallResult<V, E>,
                                     truthy: V -> bool, isInstance: (V, Hint) -> bool)
    requires ReturnKey !in hints
    ensures ReturnTypeWrapper(hints, call1, truthy, isInstance) ==
            ReturnTypeWrapper(hints, call2, truthy, isInstance)
  {
  }
}
