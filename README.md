# concordat interfaces in Dafny

concordat lets a Python class declare an interface. The interface root has the metaclass
`InterfaceMeta` and tags its methods with `@abstract_method`. Every subclass is then checked
when it is defined:

- it must implement each abstract method of the root;
- each implementation must carry exactly the root's type hints;
- every callable of every class built with the metaclass is wrapped so that, at call time,
  a truthy return value must be an instance of the annotated return type.

This project models that core, `concordat/interface.py`, in five modules plus worked examples.

- `Values`: the values that sit in a class namespace.
  - Python reflection is recorded as data on each value: `callable`, `isinstance(v, staticmethod)`,
    the `__isabstract__` tag and what `get_type_hints` returns.
  - The two name lists the metaclass stores on a class.
- `Namespaces`: a Python `dict` as an insertion-ordered list of distinct keys.
  - `Put` is `d[k] = v`: an existing key keeps its place, a new key goes last.
  - The class `Namespace` is the dict that `__new__` mutates. Its method `Set` performs the
    assignment in place.
- `Interface`: the decorator `abstract_method`, which mutates a function object, and one call of
  the function `return_type_wrapper` builds. The call, Python truthiness and `isinstance` are
  parameters.
- `InterfaceMeta`: `_get_abstract_methods`, `_get_all_methods` and `__new__`.
  - `New` is the loop that rewrites the namespace in place.
  - It is proved against the function `Prepared`, and the lemmas state what `Prepared` stores
    under each key.
- `Conformance`: `_get_class_methods` and `__init__`.
  - A class is seen through its MRO, a list of `ClassDef`s whose namespaces `__new__` has
    already prepared.
  - `Validate` is the verdict, and the method `Init` runs the loop that computes it.
  - The lemmas cover inheritance and overriding.
- `Scenarios`: the interface classes of the repository's tests. Each is built with `Prepared`
  and judged with `Validate`.

## Model

| member | source | states |
|---|---|---|
| Namespaces.PutSpec | concordat/interface.py:175-176 | After `d[k] = v`, reading `k` gives `v` and every other key reads as before. The key order is kept, and a new key is appended last. |
| Namespaces.LookupFound | concordat/interface.py:217 | Reading a key finds a value exactly when the key is among the dict's keys. |
| Namespaces.PutKeepsDistinct | concordat/interface.py:197 | Assigning to a dict keeps its keys distinct. |
| Namespaces.PutExisting | concordat/interface.py:177-197 | Assigning to the key at position `i` rewrites position `i` and nothing else. This is why writing back during the `items()` loop never adds or moves a key. |
| Namespaces.PutAfterSearch | concordat/interface.py:197 | Once a search has found the first position of `k`, or has found none, `d[k] = v` is an update at that position or an append. |
| Namespaces.Namespace.Set | concordat/interface.py:197 | `namespace[k] = v` in place: the new contents are `Put` of the old ones and the keys stay distinct. |
| Interface.AbstractMethod | concordat/interface.py:85-86 | The decorator returns the very same function object. Afterwards the function counts as abstract, and an already tagged function is left unchanged. |
| Interface.ReturnTypeWrapper | concordat/interface.py:42-56 | A missing return hint raises `TypeError` whatever the call does. An error of the call propagates. A result is returned, unchanged, exactly when it is falsy, the hint is the bare `None` object, or the result is an instance of the hint. A truthy non-instance raises `TypeError` naming the hint. |
| Interface.MissingHintIgnoresCall | concordat/interface.py:43-49 | Without a return hint the outcome does not depend on the wrapped call, because the `TypeError` comes before the call. |
| InterfaceMeta.AbstractMethods | concordat/interface.py:215-219 | The abstract list keeps namespace order and holds no duplicates. A name is in it exactly when its value is callable and tagged abstract. |
| InterfaceMeta.AllMethods | concordat/interface.py:232-236 | The all-methods list keeps namespace order and holds no duplicates. A name is in it exactly when its value is callable or a `staticmethod`. |
| InterfaceMeta.AbstractMethodsWithinAll | concordat/interface.py:215-236 | Every abstract method is also in the all-methods list, in the same relative order. |
| InterfaceMeta.Wrap | concordat/interface.py:178-195 | Wrapping replaces only methods, and the replacement is guarded. A wrapped value stays a method and stays callable exactly when it was. It is abstract exactly when it was, and it keeps its type hints. |
| InterfaceMeta.WrapAllKeys | concordat/interface.py:177-197 | The rewriting loop keeps the keys and their order. |
| InterfaceMeta.WrapAllLookup | concordat/interface.py:177-197 | After the rewriting loop each key reads as its old value, wrapped. |
| InterfaceMeta.New | concordat/interface.py:175-197 | `__new__` rewrites the namespace in place into `Prepared` of the class body, keeping the keys distinct. |
| InterfaceMeta.AllMethodsAfterPut | concordat/interface.py:175-176 | Storing the abstract list, which is not a method, removes its key from the all-methods list and changes nothing else in it. |
| InterfaceMeta.PreparedKeys | concordat/interface.py:175-197 | The prepared namespace has the body's keys in order, then "abstract_methods" and "all_methods" for whichever was absent, all distinct. |
| InterfaceMeta.PreparedLookup | concordat/interface.py:175-197 | "abstract_methods" holds the abstract list of the body. "all_methods" holds the all-methods list of the body minus "abstract_methods". Any other key holds the body's value, wrapped if it is a method, or nothing. |
| InterfaceMeta.PreparedKeepsAttributes | concordat/interface.py:177-197 | A non-method of the body is stored unchanged. A method is stored guarded, with the same abstract tag and the same type hints. |
| Conformance.DeclaredBy | concordat/interface.py:247 | A name is in the union exactly when one of the given classes lists it in its own "all_methods". |
| Conformance.ClassMethods | concordat/interface.py:246-248 | The class methods are exactly the names listed by some MRO entry other than the last two. |
| Conformance.ClassMethodsExtend | concordat/interface.py:246-248 | Putting a class in front of an MRO adds exactly its own declarations to the class methods. |
| Conformance.Diagnose | concordat/interface.py:132-159 | A name yields no error exactly when it conforms, and an error always names that name. It is `NotImplemented` exactly when the name is not a class method. Two differing hint maps are a `SignatureMismatch`. |
| Conformance.FirstError | concordat/interface.py:132 | No error exactly when every turn passes. Otherwise the error is that of the first failing turn. |
| Conformance.Validate | concordat/interface.py:123-159 | With at most two MRO entries the class is accepted. Otherwise it is accepted exactly when every abstract name of the root conforms, and a refusal carries the error of the first non-conforming name, in the root's order. |
| Conformance.Init | concordat/interface.py:123-159 | The loop of `__init__` returns the verdict `Validate` gives for the MRO. |
| Conformance.CheckMethod | concordat/interface.py:133-159 | One turn of the loop returns the error `Diagnose` gives for that name. |
| Conformance.RejectedAt | concordat/interface.py:132-159 | If every earlier abstract name conforms and the `k`-th does not, the refusal is the `k`-th name's error. |
| Conformance.MissingMethodRejected | concordat/interface.py:133-138 | The first abstract name missing from the class methods is refused as `NotImplemented`, which is `NotImplementedError`. |
| Conformance.MismatchRejected | concordat/interface.py:139-159 | The first abstract name whose class hints differ from the root's is refused as `SignatureMismatch`, which is `TypeError`. |
| Conformance.DiagnoseAgrees | concordat/interface.py:132-159 | Two MROs with the same root that agree on class-method membership and on the fetched hints give a name the same outcome. |
| Conformance.EmptySubclassInherits | concordat/interface.py:123-159 | A subclass that neither binds nor declares any abstract name of the root gets exactly the verdict of the class it extends. |
| Conformance.ResolveFallsThrough | concordat/interface.py:142-144 | `getattr` passes over a class that does not bind the name, so the subclass's hints are those of the rest of its MRO. |
| Conformance.OverrideCheckedAgainstRoot | concordat/interface.py:139-146 | A subclass that redefines an abstract name with hints other than the root's, or with something that has no type hints, is refused, whatever its parent did. |
| Conformance.BuiltClassDeclares | concordat/interface.py:176 | A class built by `__new__` declares exactly the methods of its body other than "abstract_methods". |
| Conformance.BuiltRootHints | concordat/interface.py:139-141 | For a root built by `__new__`, every abstract name other than the two reserved keys is an abstract method of its body. `getattr` on the root never raises `AttributeError` for it, and it yields a hint map exactly when that method has type hints, namely those hints. |
| Scenarios.BuiltMethod | concordat/interface.py:175-197 | A value of a class body is declared by the built class exactly when it is a method. `getattr` on the built class finds it with the same hints, or as a value without hints when it has none. |
| Scenarios.BuiltAbsent | concordat/interface.py:175-197 | A name the body does not bind is neither declared by the built class nor found in it. |
| Scenarios.RootFacts | concordat/interface_test.py:9-16 | `IValid` at the root asks for `run` and then `read`, with the hints of its body. |
| Scenarios.ValidAccepted | concordat/interface_test.py:19-24 | `Valid(IValid)` is accepted. |
| Scenarios.InterfaceAccepted | concordat/interface_test.py:9-16 | The interface `IValid` itself is accepted without any check. |
| Scenarios.MissingMethodRefused | concordat/interface_test.py:28-36 | `MissingMethod(IValid)` is refused with `NotImplemented("run")`. |
| Scenarios.BadNamesRefused | concordat/interface_test.py:53-64 | `BadNames(IValid)` is refused with `SignatureMismatch("run")`. |
| Scenarios.InheritEmptyAccepted | concordat/interface_test.py:167-169 | `InheritEmpty(Valid)` with an empty body is accepted. |
| Scenarios.BadOverrideRefused | concordat/interface_test.py:197-202 | `BadOverride(Valid)` is refused with `SignatureMismatch("run")`, although `Valid` conforms. |
| Scenarios.RootUnderSubclass | concordat/interface.py:123-141 | Putting any class in front of an MRO that ends in `IValid, object` keeps `IValid` as the root: it asks for `run` and then `read`, with the hints of its body. |
| Scenarios.ClassMethodSubclassRun | concordat/interface.py:142-144 | When the MRO behind it lists `run`, a subclass that redefines `run` as a `@classmethod` keeps `run` among its class methods, and `getattr` reads the classmethod's hints. |
| Scenarios.ClassMethodSubclassRead | concordat/interface.py:142-144 | When the MRO behind it lists `read`, that subclass, which does not bind `read`, keeps it among its class methods and `getattr` finds the hints the MRO behind it gives. |
| Scenarios.ClassMethodOverrideAccepted | concordat/interface.py:132-159 | `class Sub(Valid)` whose `run` is a `@classmethod` with the root's signature is accepted. |
| Scenarios.BadReturnRefused | concordat/interface_test.py:95-117 | `read` annotated `-> int` and returning `"p"` raises the return-type `TypeError`, while returning `None` passes. |

## Left out

- Argument validation by pydantic's `validate_arguments` is left out.
  - The model treats it as a wrapper that keeps the function's annotations and tag, which is what
    the conformance check later reads.
  - Its `ValidationError` at call time is folded into the wrapped call's own error.
  - The tests expect `ValidationError` where the code raises the return-type `TypeError`; the
    model follows the code.
- The computation of the MRO (C3 linearisation) is left out. `cls.mro()` is an input list, and
  the root's own MRO is taken to be the last two entries.
- `callable`, `isinstance(v, staticmethod)` and `isinstance` against the return annotation are
  inputs, not models of Python's reflection.
- The outcome of `get_type_hints(getattr(cls, n))` is recorded on each value: a hint map, or
  `TypeError` for a value without hints such as a string or a callable instance. A function, a
  `staticmethod` and a `classmethod` all give their function's hints.
  - The guarded wrapper is taken to report the hints of what it wraps. This holds for a wrapped
    function, whose annotations `functools.wraps` copies.
  - Subscripted generics such as `Tuple[List, str]`, on which `isinstance` raises, are not
    modelled.
  - Whether a `staticmethod` object is callable depends on the Python version. That fact is
    carried by the input flag.
- `getattr(c, "all_methods", [])` in `_get_class_methods` reads each class's own namespace. It
  does not walk that class's own MRO. The two agree because a class without its own list was not
  built by the metaclass, so no ancestor of it was either.
- The text of the exception messages is left out. Errors are named by kind and method name.
- `type.__new__`, which turns the prepared namespace into a class object, is left out.
- Object identity is not modelled beyond the decorator:
  - function objects in a namespace are values, so aliasing between two namespaces is not
    captured;
  - `functools.wraps` copying other attributes (name, docstring) is not captured.
- Scenarios.BadReturnRefused: it covers the two return values of the test, not `IZeus`/`Zeus`
  class construction. That construction is covered by the conformance lemmas.
