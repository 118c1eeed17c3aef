/** The Python values the interface metaclass looks at when a class is defined.

    Python's reflection is not modelled: whether a value is callable, whether it is a
    `staticmethod`, whether it carries the `__isabstract__` tag and what `get_type_hints` gives
    for what `getattr` returns for it are facts recorded on the value itself. */
module Values {

  datatype Option<T> = None | Some(value: T)

  /** An attribute or parameter name. */
  type Name = string

  /** A resolved type hint. `NoneObject` is the bare `None` object; `TypeNamed` is any type,
      `NoneType` included (`get_type_hints` turns an annotation `None` into `NoneType`). */
  datatype Hint = NoneObject | TypeNamed(name: string)

  /** What `get_type_hints` returns: parameter name to hint, plus the key "return". */
  type Hints = map<Name, Hint>

  const ReturnKey: Name := "return"
  const AbstractMethodsKey: Name := "abstract_methods"
  const AllMethodsKey: Name := "all_methods"
  /** How many trailing MRO entries (the interface root and `object`) are not implementations. */
  const MroJump: nat := 2

  /** A value in a class namespace.
      `Object` is anything defined in the class body: `callable` is `callable(v)`,
      `isStatic` is `isinstance(v, staticmethod)`, `tagged` is `getattr(v, "__isabstract__", False)`,
      `hints` is the outcome of `get_type_hints` on what `getattr` on the class returns for it
      (`None` when `get_type_hints` raises `TypeError`: a string, a number, a callable instance;
      a function, a `staticmethod` and a `classmethod` all yield the hints of their function),
      and `guarded` records that the metaclass has wrapped it with the return-type check.
      `NameList` is one of the two name lists the metaclass stores on every class. */
  datatype Value =
    | Object(callable: bool, isStatic: bool, tagged: bool, hints: Option<Hints>, guarded: bool)
    | NameList(names: seq<Name>)

  predicate IsCallable(v: Value) {
    v.Object? && v.callable
  }

  predicate IsStaticMethod(v: Value) {
    v.Object? && v.isStatic
  }

  /** The filter of `_get_abstract_methods`: callable and tagged abstract. */
  predicate IsAbstract(v: Value) {
    IsCallable(v) && v.tagged
  }

  /** The filter of `_get_all_methods`: callable or a `staticmethod`. */
  predicate IsMethod(v: Value) {
    IsCallable(v) || IsStaticMethod(v)
  }

  /** `get_type_hints(getattr(cls, name))` for a value `getattr` finds, `None` when it raises
      `TypeError`. The two stored name lists are Python lists, which have no type hints. */
  function HintsOf(v: Value): Option<Hints> {
    if v.Object? then v.hints else None
  }
}
