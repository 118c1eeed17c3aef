/** The interface classes of the repository's test suite, built with `__new__` and judged by
    `__init__`: the accepted implementation, a missing method, renamed parameters, an empty
    subclass, a bad override two levels down, and the return-type check on a bad return.
    Each class body is a parameter fixed by a `requires`, so that a proof unfolds only the steps
    of `__new__` it needs. */
module Scenarios {
  import opened Values
  import opened Namespaces
  import opened Conformance
  import InterfaceMeta
  import Interface

  const Str: Hint := TypeNamed("str")
  const Int: Hint := TypeNamed("int")
  const NoneType: Hint := TypeNamed("NoneType")

  /** `def run(self, path: str, id: int) -> None` */
  function RunHints(): Hints {
    map["path" := Str, "id" := Int, "return" := NoneType]
  }

  /** `def read(self, path: str) -> None` */
  function ReadHints(): Hints {
    map["path" := Str, "return" := NoneType]
  }

  /** `def run(self, poop: str, identification: int) -> None` */
  function BadRunHints(): Hints {
    map["poop" := Str, "identification" := Int, "return" := NoneType]
  }

  /** `def run(self, sheesh: str, id: int) -> None` */
  function OverrideHints(): Hints {
    map["sheesh" := Str, "id" := Int, "return" := NoneType]
  }

  /** A plain `def` in a class body. */
  function Def(hints: Hints): Value {
    Object(true, false, false, Some(hints), false)
  }

  /** A `def` decorated with `@abstract_method`. */
  function AbstractDef(hints: Hints): Value {
    Object(true, false, true, Some(hints), false)
  }

  /** A `def` decorated with `@classmethod`: not callable, not a `staticmethod`, but `getattr` on
      the class returns a bound method with the hints of the function. */
  function ClassMethodDef(hints: Hints): Value {
    Object(false, false, false, Some(hints), false)
  }

  /** The `__module__` entry every class body has: a string, not a method, without type hints. */
  const Module: Item := ("__module__", Object(false, false, false, None, false))

  function Build(name: string, body: seq<Item>): ClassDef {
    ClassDef(name, InterfaceMeta.Prepared(body))
  }

  function ObjectClass(): ClassDef {
    ClassDef("object", [])
  }

  function IValidBody(): seq<Item> {
    [Module, ("run", AbstractDef(RunHints())), ("read", AbstractDef(ReadHints()))]
  }

  function ValidBody(): seq<Item> {
    [Module, ("run", Def(RunHints())), ("read", Def(ReadHints()))]
  }

  function MissingMethodBody(): seq<Item> {
    [Module, ("read", Def(ReadHints()))]
  }

  function BadNamesBody(): seq<Item> {
    [Module, ("run", Def(BadRunHints())), ("read", Def(ReadHints()))]
  }

  function BadOverrideBody(): seq<Item> {
    [Module, ("run", Def(OverrideHints()))]
  }

  /** A value of a class body, once `__new__` has built the class, is declared by it exactly when
      it is a method, and `getattr` on the class (in front of any bases) finds it with the same
      type hints, or with none. */
  lemma BuiltMethod(name: string, body: seq<Item>, bases: seq<ClassDef>, n: Name, v: Value)
    requires Distinct(Keys(body)) && n != AbstractMethodsKey && n != AllMethodsKey
    requires Lookup(body, n) == Some(v)
    ensures Declares(Build(name, body), n) <==> IsMethod(v)
    ensures Lookup(Build(name, body).attrs, n).Some?
    ensures HintsOf(Lookup(Build(name, body).attrs, n).value) == HintsOf(v)
    ensures FetchHints([Build(name, body)] + bases, n) ==
            if HintsOf(v).Some? then HintMap(HintsOf(v).value) else NotAFunction
  {
    BuiltClassDeclares(name, body, n);
    InterfaceMeta.PreparedKeepsAttributes(body, n, v);
    assert ([Build(name, body)] + bases)[0] == Build(name, body);
  }

  /** A name the class body does not bind is neither declared by the built class nor found in it. */
  lemma BuiltAbsent(name: string, body: seq<Item>, n: Name)
    requires Distinct(Keys(body)) && n != AbstractMethodsKey && n != AllMethodsKey
    requires Lookup(body, n).None?
    ensures !Declares(Build(name, body), n) && Lookup(Build(name, body).attrs, n).None?
  {
    BuiltClassDeclares(name, body, n);
    InterfaceMeta.PreparedLookup(body, n);
    LookupFound(body, n);
  }

  lemma IValidBodyFacts(iface: seq<Item>)
    requires iface == IValidBody()
    ensures Distinct(Keys(iface))
    ensures InterfaceMeta.AbstractMethods(iface) == ["run", "read"]
    ensures Lookup(iface, "run") == Some(AbstractDef(RunHints()))
    ensures Lookup(iface, "read") == Some(AbstractDef(ReadHints()))
  {
    assert Distinct(Keys(IValidBody()));
    assert InterfaceMeta.AbstractMethods(IValidBody()) == ["run", "read"];
  }

  /** `IValid` at the root of an MRO asks for `run` and `read`. */
  lemma RootAbstracts(iface: seq<Item>, mro: seq<ClassDef>)
    requires iface == IValidBody()
    requires |mro| >= MroJump && mro[|mro| - MroJump..] == [Build("IValid", iface), ObjectClass()]
    ensures MustImplement(mro) == ["run", "read"]
  {
    IValidBodyFacts(iface);
    InterfaceMeta.PreparedLookup(iface, AbstractMethodsKey);
    assert InterfaceBase(mro)[0] == Build("IValid", iface);
  }

  /** `IValid` at the root of an MRO asks for `run` and `read`, with the hints of its body. */
  lemma RootFacts(iface: seq<Item>, mro: seq<ClassDef>)
    requires iface == IValidBody()
    requires |mro| >= MroJump && mro[|mro| - MroJump..] == [Build("IValid", iface), ObjectClass()]
    ensures MustImplement(mro) == ["run", "read"]
    ensures FetchHints(InterfaceBase(mro), "run") == HintMap(RunHints())
    ensures FetchHints(InterfaceBase(mro), "read") == HintMap(ReadHints())
  {
    RootAbstracts(iface, mro);
    IValidBodyFacts(iface);
    BuiltMethod("IValid", iface, [ObjectClass()], "run", AbstractDef(RunHints()));
    BuiltMethod("IValid", iface, [ObjectClass()], "read", AbstractDef(ReadHints()));
    assert InterfaceBase(mro)[0] == Build("IValid", iface);
  }

  lemma ValidBodyFacts(valid: seq<Item>)
    requires valid == ValidBody()
    ensures Distinct(Keys(valid))
    ensures Lookup(valid, "run") == Some(Def(RunHints()))
    ensures Lookup(valid, "read") == Some(Def(ReadHints()))
  {
    assert Distinct(Keys(ValidBody()));
  }

  lemma MissingMethodBodyFacts(body: seq<Item>)
    requires body == MissingMethodBody()
    ensures Distinct(Keys(body)) && Lookup(body, "run").None?
  {
    assert Distinct(Keys(MissingMethodBody()));
  }

  lemma BadNamesBodyFacts(body: seq<Item>)
    requires body == BadNamesBody()
    ensures Distinct(Keys(body)) && Lookup(body, "run") == Some(Def(BadRunHints()))
  {
    assert Distinct(Keys(BadNamesBody()));
  }

  lemma BadOverrideBodyFacts(body: seq<Item>)
    requires body == BadOverrideBody()
    ensures Distinct(Keys(body)) && Lookup(body, "run") == Some(Def(OverrideHints()))
  {
    assert Distinct(Keys(BadOverrideBody()));
  }

  lemma EmptyBodyFacts(body: seq<Item>)
    requires body == [Module]
    ensures Distinct(Keys(body)) && Lookup(body, "run").None? && Lookup(body, "read").None?
  {
    assert Keys(body) == [Module.0];
  }

  /** The MRO of a class with one base and `object`: the class in front of its base's MRO. */
  lemma ClassInFront3(c: ClassDef, d: ClassDef, e: ClassDef)
    ensures [c] + [d, e] == [c, d, e]
  {
  }

  /** The MRO of a class two levels below the root: the class in front of its base's MRO. */
  lemma ClassInFront4(c: ClassDef, d: ClassDef, e: ClassDef, f: ClassDef)
    ensures [c] + [d, e, f] == [c, d, e, f]
  {
  }

  /** Both methods of `Valid` resolve with the hints the root declares. */
  lemma ValidConforms(iface: seq<Item>, valid: seq<Item>, mro: seq<ClassDef>)
    requires iface == IValidBody() && valid == ValidBody()
    requires mro == [Build("Valid", valid)] + [Build("IValid", iface), ObjectClass()]
    ensures Conforms(mro, "run") && Conforms(mro, "read")
  {
    var bases := [Build("IValid", iface), ObjectClass()];
    RootFacts(iface, mro);
    ValidBodyFacts(valid);
    BuiltMethod("Valid", valid, bases, "run", Def(RunHints()));
    BuiltMethod("Valid", valid, bases, "read", Def(ReadHints()));
    assert mro[0] == Build("Valid", valid);
  }

  /** `class Valid(IValid)` implements both methods with the root's signatures: accepted. */
  lemma ValidAccepted(iface: seq<Item>, valid: seq<Item>)
    requires iface == IValidBody() && valid == ValidBody()
    ensures Validate([Build("Valid", valid), Build("IValid", iface), ObjectClass()]) == Accepted
  {
    var mro := [Build("Valid", valid)] + [Build("IValid", iface), ObjectClass()];
    RootAbstracts(iface, mro);
    ValidConforms(iface, valid, mro);
    ClassInFront3(Build("Valid", valid), Build("IValid", iface), ObjectClass());
  }

  /** The interface itself (MRO `[IValid, object]`) is never checked. */
  lemma InterfaceAccepted(iface: seq<Item>)
    requires iface == IValidBody()
    ensures Validate([Build("IValid", iface), ObjectClass()]) == Accepted
  {
  }

  /** `class MissingMethod(IValid)` defines only `read`: `NotImplementedError` for `run`. */
  lemma MissingMethodRefused(iface: seq<Item>, body: seq<Item>)
    requires iface == IValidBody() && body == MissingMethodBody()
    ensures Validate([Build("MissingMethod", body), Build("IValid", iface), ObjectClass()])
            == Rejected(NotImplemented("run"))
  {
    var mro := [Build("MissingMethod", body), Build("IValid", iface), ObjectClass()];
    RootFacts(iface, mro);
    MissingMethodBodyFacts(body);
    BuiltAbsent("MissingMethod", body, "run");
    assert "run" !in ClassMethods(mro) by {
      assert mro[0] == Build("MissingMethod", body);
    }
    MissingMethodRejected(mro, 0);
  }

  lemma HintsDiffer()
    ensures BadRunHints() != RunHints() && OverrideHints() != RunHints()
  {
    assert "poop" in BadRunHints() && "poop" !in RunHints();
    assert "sheesh" in OverrideHints() && "sheesh" !in RunHints();
  }

  /** In the MRO of `BadNames`, `run` is a class method whose hints are those of its body. */
  lemma BadNamesFacts(iface: seq<Item>, body: seq<Item>, mro: seq<ClassDef>)
    requires iface == IValidBody() && body == BadNamesBody()
    requires mro == [Build("BadNames", body)] + [Build("IValid", iface), ObjectClass()]
    ensures "run" in ClassMethods(mro) && FetchHints(mro, "run") == HintMap(BadRunHints())
  {
    BadNamesBodyFacts(body);
    BuiltMethod("BadNames", body, [Build("IValid", iface), ObjectClass()], "run", Def(BadRunHints()));
    assert mro[0] == Build("BadNames", body);
  }

  /** `class BadNames(IValid)` renames the parameters of `run`: `TypeError` for `run`. */
  lemma BadNamesRefused(iface: seq<Item>, body: seq<Item>)
    requires iface == IValidBody() && body == BadNamesBody()
    ensures Validate([Build("BadNames", body), Build("IValid", iface), ObjectClass()])
            == Rejected(SignatureMismatch("run"))
  {
    var mro := [Build("BadNames", body)] + [Build("IValid", iface), ObjectClass()];
    RootFacts(iface, mro);
    BadNamesFacts(iface, body, mro);
    HintsDiffer();
    MismatchRejected(mro, 0);
    ClassInFront3(Build("BadNames", body), Build("IValid", iface), ObjectClass());
  }

  /** A subclass with an empty body, in front of an MRO whose root asks for `run` and `read`, gets
      the verdict of that MRO. */
  lemma EmptySubclassVerdict(body: seq<Item>, mro: seq<ClassDef>)
    requires body == [Module] && |mro| > MroJump && MustImplement(mro) == ["run", "read"]
    ensures Validate([Build("InheritEmpty", body)] + mro) == Validate(mro)
  {
    EmptyBodyFacts(body);
    BuiltAbsent("InheritEmpty", body, "run");
    BuiltAbsent("InheritEmpty", body, "read");
    EmptySubclassInherits(Build("InheritEmpty", body), mro);
  }

  /** `class InheritEmpty(Valid): pass` is accepted: the methods of `Valid` count. */
  lemma InheritEmptyAccepted(iface: seq<Item>, valid: seq<Item>, body: seq<Item>)
    requires iface == IValidBody() && valid == ValidBody() && body == [Module]
    ensures Validate([Build("InheritEmpty", body), Build("Valid", valid), Build("IValid", iface),
                      ObjectClass()]) == Accepted
  {
    var c := Build("InheritEmpty", body);
    var mro := [Build("Valid", valid), Build("IValid", iface), ObjectClass()];
    RootFacts(iface, mro);
    ValidAccepted(iface, valid);
    EmptySubclassVerdict(body, mro);
    ClassInFront4(c, Build("Valid", valid), Build("IValid", iface), ObjectClass());
  }

  /** `IValid` is still the root of the MRO of a subclass of one of its implementations. */
  lemma RootUnderSubclass(c: ClassDef, mro: seq<ClassDef>, iface: seq<Item>, full: seq<ClassDef>)
    requires iface == IValidBody() && |mro| >= MroJump
    requires mro[|mro| - MroJump..] == [Build("IValid", iface), ObjectClass()]
    requires full == [c] + mro
    ensures |full| > MroJump && MustImplement(full) == ["run", "read"]
    ensures FetchHints(InterfaceBase(full), "run") == HintMap(RunHints())
    ensures FetchHints(InterfaceBase(full), "read") == HintMap(ReadHints())
  {
    assert full[|full| - MroJump..] == mro[|mro| - MroJump..];
    RootFacts(iface, full);
  }

  /** In the MRO of `BadOverride`, `run` is a class method whose hints are those of its body. */
  lemma BadOverrideRun(body: seq<Item>, mro: seq<ClassDef>)
    requires body == BadOverrideBody() && |mro| >= MroJump
    ensures "run" in ClassMethods([Build("BadOverride", body)] + mro)
    ensures FetchHints([Build("BadOverride", body)] + mro, "run") == HintMap(OverrideHints())
  {
    BadOverrideBodyFacts(body);
    BuiltMethod("BadOverride", body, mro, "run", Def(OverrideHints()));
    ClassMethodsExtend(Build("BadOverride", body), mro, "run");
  }

  /** `class BadOverride(Valid)` redefines `run` with a renamed parameter: `TypeError` for `run`,
      although `Valid` conforms, because the check compares against the root `IValid`. */
  lemma BadOverrideRefused(iface: seq<Item>, valid: seq<Item>, body: seq<Item>)
    requires iface == IValidBody() && valid == ValidBody() && body == BadOverrideBody()
    ensures Validate([Build("BadOverride", body), Build("Valid", valid), Build("IValid", iface),
                      ObjectClass()]) == Rejected(SignatureMismatch("run"))
  {
    var c := Build("BadOverride", body);
    var mro := [Build("Valid", valid), Build("IValid", iface), ObjectClass()];
    var full := [c] + mro;
    RootUnderSubclass(c, mro, iface, full);
    BadOverrideRun(body, mro);
    HintsDiffer();
    MismatchRejected(full, 0);
    ClassInFront4(c, Build("Valid", valid), Build("IValid", iface), ObjectClass());
  }

  function ClassMethodBody(): seq<Item> {
    [Module, ("run", ClassMethodDef(RunHints()))]
  }

  lemma ClassMethodBodyFacts(body: seq<Item>)
    requires body == ClassMethodBody()
    ensures Distinct(Keys(body)) && Lookup(body, "run") == Some(ClassMethodDef(RunHints()))
    ensures Lookup(body, "read").None?
  {
    assert Distinct(Keys(ClassMethodBody()));
  }

  /** In front of an MRO that has `run` as a class method, `Sub` keeps it one, although `Sub`
      itself does not list it, and `getattr` finds the classmethod of `Sub` with its hints. */
  lemma ClassMethodSubclassRun(body: seq<Item>, mro: seq<ClassDef>)
    requires body == ClassMethodBody() && |mro| >= MroJump && "run" in ClassMethods(mro)
    ensures "run" in ClassMethods([Build("Sub", body)] + mro)
    ensures FetchHints([Build("Sub", body)] + mro, "run") == HintMap(RunHints())
  {
    ClassMethodBodyFacts(body);
    BuiltMethod("Sub", body, mro, "run", ClassMethodDef(RunHints()));
    ClassMethodsExtend(Build("Sub", body), mro, "run");
  }

  /** `Sub` does not bind `read`: membership and `getattr` fall through to the MRO behind it. */
  lemma ClassMethodSubclassRead(body: seq<Item>, mro: seq<ClassDef>)
    requires body == ClassMethodBody() && |mro| >= MroJump && "read" in ClassMethods(mro)
    ensures "read" in ClassMethods([Build("Sub", body)] + mro)
    ensures FetchHints([Build("Sub", body)] + mro, "read") == FetchHints(mro, "read")
  {
    ClassMethodBodyFacts(body);
    BuiltAbsent("Sub", body, "read");
    ClassMethodsExtend(Build("Sub", body), mro, "read");
    ResolveFallsThrough(Build("Sub", body), mro, "read");
  }

  /** In the MRO of `Sub`, the root asks for `run` and `read`, and both conform. */
  lemma ClassMethodSubclassFacts(iface: seq<Item>, valid: seq<Item>, body: seq<Item>,
                                 full: seq<ClassDef>)
    requires iface == IValidBody() && valid == ValidBody() && body == ClassMethodBody()
    requires full == [Build("Sub", body)] +
                     [Build("Valid", valid), Build("IValid", iface), ObjectClass()]
    ensures |full| > MroJump && MustImplement(full) == ["run", "read"]
    ensures Conforms(full, "run") && Conforms(full, "read")
  {
    var mro := [Build("Valid", valid), Build("IValid", iface), ObjectClass()];
    ClassInFront3(Build("Valid", valid), Build("IValid", iface), ObjectClass());
    RootFacts(iface, mro);
    ValidConforms(iface, valid, mro);
    ClassMethodSubclassRun(body, mro);
    ClassMethodSubclassRead(body, mro);
    RootUnderSubclass(Build("Sub", body), mro, iface, full);
  }

  /** A class whose root asks for `run` and `read` and that conforms on both is accepted. */
  lemma AcceptedOnRunAndRead(mro: seq<ClassDef>)
    requires |mro| > MroJump && MustImplement(mro) == ["run", "read"]
    requires Conforms(mro, "run") && Conforms(mro, "read")
    ensures Validate(mro) == Accepted
  {
  }

  /** `class Sub(Valid)` redefining `run` as a `@classmethod` with the root's signature is
      accepted: the classmethod is neither wrapped nor listed by `__new__`, `run` stays a class
      method through `Valid`, and `get_type_hints` reads the hints of the bound method. */
  lemma ClassMethodOverrideAccepted(iface: seq<Item>, valid: seq<Item>, body: seq<Item>)
    requires iface == IValidBody() && valid == ValidBody() && body == ClassMethodBody()
    ensures Validate([Build("Sub", body), Build("Valid", valid), Build("IValid", iface),
                      ObjectClass()]) == Accepted
  {
    var c := Build("Sub", body);
    var full := [c] + [Build("Valid", valid), Build("IValid", iface), ObjectClass()];
    ClassMethodSubclassFacts(iface, valid, body, full);
    AcceptedOnRunAndRead(full);
    ClassInFront4(c, Build("Valid", valid), Build("IValid", iface), ObjectClass());
  }

  /** Python values that a test method returns. */
  datatype PyValue = PyStr(s: string) | PyInt(i: int) | PyNone

  predicate Truthy(v: PyValue) {
    match v
    case PyStr(s) => s != ""
    case PyInt(i) => i != 0
    case PyNone => false
  }

  predicate IsInstance(v: PyValue, h: Hint) {
    match v
    case PyStr(_) => h == Str
    case PyInt(_) => h == Int
    case PyNone => h == NoneType
  }

  /** The argument validation error of the inner wrapper. */
  datatype CallError = ValidationError

  /** A call of the method that returns `v`. */
  function Returning(v: PyValue): () -> Interface.CallResult<PyValue, CallError> {
    () => Interface.Returned(v)
  }

  /** `def read(self, path: str) -> int: return "p"` raises `TypeError` when called; returning
      `None` or `0` from it would pass. */
  lemma BadReturnRefused()
    ensures Interface.ReturnTypeWrapper(map["path" := Str, "return" := Int],
                                        Returning(PyStr("p")), Truthy, IsInstance)
            == Interface.Raised(Interface.ReturnTypeMismatch(Int))
    ensures Interface.ReturnTypeWrapper(map["path" := Str, "return" := Int],
                                        Returning(PyNone), Truthy, IsInstance)
            == Interface.Returned(PyNone)
  {
  }
}
