/** `InterfaceMeta.__init__`: the check that a class implements its interface root, run on the
    class's method resolution order (MRO) once `__new__` has built it. */
module Conformance {
  import opened Values
  import opened Namespaces
  import InterfaceMeta

  /** A class as its MRO lists it: its name and its namespace as `__new__` left it. */
  datatype ClassDef = ClassDef(name: string, attrs: seq<Item>)

  /** The reasons `__init__` refuses a class, one per exception it can raise for a method name. */
  datatype ClassError =
    | NotImplemented(methodName: Name)      // the name is missing from the class methods
    | MissingAttribute(methodName: Name)    // `getattr` finds no attribute of that name
    | NoTypeHints(methodName: Name)         // `get_type_hints` refuses what `getattr` found
    | SignatureMismatch(methodName: Name)   // the two hint maps differ

  datatype PyException = NotImplementedError | AttributeError | TypeError

  function ExceptionOf(e: ClassError): PyException {
    match e
    case NotImplemented(_) => NotImplementedError
    case MissingAttribute(_) => AttributeError
    case NoTypeHints(_) => TypeError
    case SignatureMismatch(_) => TypeError
  }

  datatype Verdict = Accepted | Rejected(error: ClassError)

  /** `getattr(c, key, [])` for one of the two stored lists: a stored list, or the default. */
  function NamesIn(v: Option<Value>): seq<Name> {
    match v
    case Some(NameList(names)) => names
    case _ => []
  }

  /** `n` is in the `all_methods` list stored on class `c`. */
  predicate Declares(c: ClassDef, n: Name) {
    n in NamesIn(Lookup(c.attrs, AllMethodsKey))
  }

  /** `getattr` along an MRO: the value in the first class whose namespace holds `n`. */
  function Resolve(classes: seq<ClassDef>, n: Name): Option<Value> {
    if classes == [] then None
    else
      var here := Lookup(classes[0].attrs, n);
      if here.Some? then here else Resolve(classes[1..], n)
  }

  /** The outcome of `get_type_hints(getattr(x, n))` where `classes` is the MRO of `x`. */
  datatype Fetched = NoAttribute | NotAFunction | HintMap(hints: Hints)

  function FetchHints(classes: seq<ClassDef>, n: Name): Fetched {
    match Resolve(classes, n)
    case None => NoAttribute
    case Some(v) => if HintsOf(v).Some? then HintMap(HintsOf(v).value) else NotAFunction
  }

  /** The interface root `mro[-2]` together with its own MRO. Whatever precedes `object` in the
      root's MRO would stand between the root and `object` in the class's MRO, so the root's MRO
      is exactly the last two entries. */
  function InterfaceBase(mro: seq<ClassDef>): seq<ClassDef>
    requires |mro| >= MroJump
  {
    mro[|mro| - MroJump..]
  }

  /** The classes whose methods count as implementations: `mro[:-2]`. */
  function Implementations(mro: seq<ClassDef>): seq<ClassDef> {
    if |mro| <= MroJump then [] else mro[..|mro| - MroJump]
  }

  function DeclaredBy(classes: seq<ClassDef>): (r: set<Name>)
    ensures forall n :: n in r <==> exists i :: 0 <= i < |classes| && Declares(classes[i], n)
  {
    if classes == [] then {}
    else
      var rest := DeclaredBy(classes[1..]);
      assert forall n, i :: 0 <= i < |classes| - 1 && Declares(classes[1..][i], n) ==>
                              Declares(classes[i + 1], n);
      assert forall n, i :: 0 < i < |classes| && Declares(classes[i], n) ==>
                              Declares(classes[1..][i - 1], n);
      (set n | n in NamesIn(Lookup(classes[0].attrs, AllMethodsKey))) + rest
  }

  /** `_get_class_methods`: the union of the `all_methods` lists of every MRO entry but the last
      two, so the interface root's own stubs never count while every class between the new class
      and the root contributes its methods. */
  function ClassMethods(mro: seq<ClassDef>): (r: set<Name>)
    ensures forall n :: n in r <==> exists i :: 0 <= i < |mro| - MroJump && Declares(mro[i], n)
  {
    DeclaredBy(Implementations(mro))
  }

  /** The names the root tags abstract: `getattr(interface_base, "abstract_methods", [])`. */
  function MustImplement(mro: seq<ClassDef>): seq<Name>
    requires |mro| >= MroJump
  {
    NamesIn(Resolve(InterfaceBase(mro), AbstractMethodsKey))
  }

  /** The class implements `n` as the root declares it: `n` is among the class methods, the root's
      `n` has type hints, and the class's `n` has exactly the same ones. */
  predicate Conforms(mro: seq<ClassDef>, n: Name)
    requires |mro| >= MroJump
  {
    && n in ClassMethods(mro)
    && FetchHints(InterfaceBase(mro), n).HintMap?
    && FetchHints(mro, n) == FetchHints(InterfaceBase(mro), n)
  }

  /** The error one turn of the loop in `__init__` raises for `n`, if any: membership is checked
      first, then the root's hints are fetched, then the class's, then the two are compared. */
  function Diagnose(mro: seq<ClassDef>, n: Name): (r: Option<ClassError>)
    requires |mro| >= MroJump
    ensures r.None? <==> Conforms(mro, n)
    ensures r.Some? ==> r.value.methodName == n
    ensures r == Some(NotImplemented(n)) <==> n !in ClassMethods(mro)
    ensures n in ClassMethods(mro) && FetchHints(InterfaceBase(mro), n).HintMap? &&
            FetchHints(mro, n).HintMap? && FetchHints(mro, n) != FetchHints(InterfaceBase(mro), n)
            ==> r == Some(SignatureMismatch(n))
  {
    if n !in ClassMethods(mro) then Some(NotImplemented(n))
    else match FetchHints(InterfaceBase(mro), n)
      case NoAttribute => Some(MissingAttribute(n))
      case NotAFunction => Some(NoTypeHints(n))
      case HintMap(interfaceDefinition) =>
        match FetchHints(mro, n)
        case NoAttribute => Some(MissingAttribute(n))
        case NotAFunction => Some(NoTypeHints(n))
        case HintMap(instanceDefinition) =>
          if instanceDefinition != interfaceDefinition then Some(SignatureMismatch(n)) else None
  }

  /** The first error of a list of per-name outcomes. */
  function FirstError(ds: seq<Option<ClassError>>): (r: Option<ClassError>)
    ensures r.None? <==> forall k :: 0 <= k < |ds| ==> ds[k].None?
    ensures r.Some? ==> exists k :: 0 <= k < |ds| && ds[k] == r && forall j :: 0 <= j < k ==> ds[j].None?
  {
    if ds == [] then None
    else if ds[0].Some? then ds[0]
    else
      var rest := FirstError(ds[1..]);
      assert forall k :: 0 < k < |ds| ==> ds[k] == ds[1..][k - 1];
      rest
  }

  /** The outcome of each turn of the loop of `__init__`, name by name. */
  function Diagnoses(mro: seq<ClassDef>, names: seq<Name>): (ds: seq<Option<ClassError>>)
    requires |mro| >= MroJump
    ensures |ds| == |names|
  {
    seq(|names|, k requires 0 <= k < |names| => Diagnose(mro, names[k]))
  }

  /** The verdict of `__init__`. With at most two MRO entries (an interface, or any class declared
      directly with the metaclass) nothing is checked. Otherwise the class is accepted exactly
      when it conforms on every abstract name of the root; a refusal reports the first name of
      the root's list that does not conform. */
  function Validate(mro: seq<ClassDef>): (v: Verdict)
    ensures |mro| <= MroJump ==> v == Accepted
    ensures v == Accepted <==>
              |mro| <= MroJump ||
              forall k :: 0 <= k < |MustImplement(mro)| ==> Conforms(mro, MustImplement(mro)[k])
    ensures v.Rejected? ==>
              |mro| > MroJump &&
              exists k :: 0 <= k < |MustImplement(mro)| &&
                          Diagnose(mro, MustImplement(mro)[k]) == Some(v.error) &&
                          forall j :: 0 <= j < k ==> Conforms(mro, MustImplement(mro)[j])
  {
    if |mro| <= MroJump then Accepted
    else
      var ds := Diagnoses(mro, MustImplement(mro));
      assert forall k :: 0 <= k < |ds| ==> ds[k] == Diagnose(mro, MustImplement(mro)[k]);
      match FirstError(ds)
      case None => Accepted
      case Some(e) => Rejected(e)
  }

  /** `InterfaceMeta.__init__`: walks the root's abstract list and stops at the first failure. */
  method Init(mro: seq<ClassDef>) returns (verdict: Verdict)
    ensures verdict == Validate(mro)
  {
    if |mro| > MroJump {
      var interfaceBase := InterfaceBase(mro);
      var mustImplement := NamesIn(Resolve(interfaceBase, AbstractMethodsKey));
      var classMethods := ClassMethods(mro);
      ghost var ds := Diagnoses(mro, mustImplement);
      for i := 0 to |mustImplement|
        invariant FirstError(ds) == FirstError(ds[i..])
      {
        assert ds[i..][0] == ds[i] && ds[i..][1..] == ds[i + 1..];
        var error := CheckMethod(mro, classMethods, mustImplement[i]);
        if error.Some? {
          return Rejected(error.value);
        }
      }
    }
    return Accepted;
  }

  /** One turn of the loop of `__init__`: the membership test, then `get_type_hints` on the root's
      attribute and on the class's, then the comparison. */
  method CheckMethod(mro: seq<ClassDef>, classMethods: set<Name>, name: Name)
    returns (error: Option<ClassError>)
    requires |mro| > MroJump && classMethods == ClassMethods(mro)
    ensures error == Diagnose(mro, name)
  {
    if name !in classMethods {
      return Some(NotImplemented(name));
    }
    var interfaceDefinition := FetchHints(InterfaceBase(mro), name);
    if interfaceDefinition.NoAttribute? {
      return Some(MissingAttribute(name));
    } else if interfaceDefinition.NotAFunction? {
      return Some(NoTypeHints(name));
    }
    var instanceDefinition := FetchHints(mro, name);
    if instanceDefinition.NoAttribute? {
      return Some(MissingAttribute(name));
    } else if instanceDefinition.NotAFunction? {
      return Some(NoTypeHints(name));
    }
    if instanceDefinition.hints != interfaceDefinition.hints {
      return Some(SignatureMismatch(name));
    }
    return None;
  }

  /** The first non-conforming abstract name decides the refusal. */
  lemma RejectedAt(mro: seq<ClassDef>, k: nat)
    requires |mro| > MroJump && k < |MustImplement(mro)|
    requires forall j :: 0 <= j < k ==> Conforms(mro, MustImplement(mro)[j])
    requires !Conforms(mro, MustImplement(mro)[k])
    ensures Validate(mro) == Rejected(Diagnose(mro, MustImplement(mro)[k]).value)
  {
    var must := MustImplement(mro);
    var v := Validate(mro);
    assert v.Rejected?;
    var k' :| 0 <= k' < |must| && Diagnose(mro, must[k']) == Some(v.error) &&
              forall j :: 0 <= j < k' ==> Conforms(mro, must[j]);
    assert k' == k;
  }

  /** A missing (or misspelled) method: `NotImplementedError` for the first such abstract name. */
  lemma MissingMethodRejected(mro: seq<ClassDef>, k: nat)
    requires |mro| > MroJump && k < |MustImplement(mro)|
    requires forall j :: 0 <= j < k ==> Conforms(mro, MustImplement(mro)[j])
    requires MustImplement(mro)[k] !in ClassMethods(mro)
    ensures Validate(mro) == Rejected(NotImplemented(MustImplement(mro)[k]))
    ensures ExceptionOf(Validate(mro).error) == NotImplementedError
  {
    RejectedAt(mro, k);
  }

  /** Renamed parameters, changed parameter types or a changed return type: `TypeError`. */
  lemma MismatchRejected(mro: seq<ClassDef>, k: nat)
    requires |mro| > MroJump && k < |MustImplement(mro)|
    requires forall j :: 0 <= j < k ==> Conforms(mro, MustImplement(mro)[j])
    requires MustImplement(mro)[k] in ClassMethods(mro)
    requires FetchHints(InterfaceBase(mro), MustImplement(mro)[k]).HintMap?
    requires FetchHints(mro, MustImplement(mro)[k]).HintMap?
    requires FetchHints(mro, MustImplement(mro)[k]).hints !=
             FetchHints(InterfaceBase(mro), MustImplement(mro)[k]).hints
    ensures Validate(mro) == Rejected(SignatureMismatch(MustImplement(mro)[k]))
    ensures ExceptionOf(Validate(mro).error) == TypeError
  {
    RejectedAt(mro, k);
  }

  lemma DiagnoseAgrees(mro1: seq<ClassDef>, mro2: seq<ClassDef>, n: Name)
    requires |mro1| >= MroJump && |mro2| >= MroJump
    requires InterfaceBase(mro1) == InterfaceBase(mro2)
    requires n in ClassMethods(mro1) <==> n in ClassMethods(mro2)
    requires FetchHints(mro1, n) == FetchHints(mro2, n)
    ensures Diagnose(mro1, n) == Diagnose(mro2, n)
  {
  }

  /** `getattr` passes over a class that does not bind the name. */
  lemma ResolveFallsThrough(c: ClassDef, classes: seq<ClassDef>, n: Name)
    requires Lookup(c.attrs, n).None?
    ensures Resolve([c] + classes, n) == Resolve(classes, n)
    ensures FetchHints([c] + classes, n) == FetchHints(classes, n)
  {
    assert ([c] + classes)[0] == c && ([c] + classes)[1..] == classes;
  }

  /** Putting a class in front of an MRO adds its own declarations to the class methods. */
  lemma {:induction false} ClassMethodsExtend(c: ClassDef, mro: seq<ClassDef>, n: Name)
    requires |mro| >= MroJump
    ensures n in ClassMethods([c] + mro) <==> Declares(c, n) || n in ClassMethods(mro)
  {
    var implementations := Implementations(mro);
    assert Implementations([c] + mro) == [c] + implementations;
    assert ([c] + implementations)[1..] == implementations;
  }

  /** A subclass that adds nothing under the root's abstract names (`class InheritEmpty(Valid):
      pass`, or one that only adds new methods) gets the verdict of the class it extends. */
  lemma EmptySubclassInherits(c: ClassDef, mro: seq<ClassDef>)
    requires |mro| > MroJump
    requires forall n :: n in MustImplement(mro) ==> Lookup(c.attrs, n).None? && !Declares(c, n)
    ensures Validate([c] + mro) == Validate(mro)
  {
    var mro' := [c] + mro;
    assert InterfaceBase(mro') == InterfaceBase(mro);
    var must := MustImplement(mro);
    assert mro'[1..] == mro;
    forall k | 0 <= k < |must| ensures Diagnose(mro', must[k]) == Diagnose(mro, must[k]) {
      ClassMethodsExtend(c, mro, must[k]);
      assert Resolve(mro', must[k]) == Resolve(mro, must[k]);
      DiagnoseAgrees(mro', mro, must[k]);
    }
    assert Diagnoses(mro', must) == Diagnoses(mro, must);
  }

  /** An override further down the hierarchy is still checked against the root: a subclass that
      binds an abstract name to something with other hints than the root's, or with no type hints
      at all, is refused, whatever the classes in between declare. */
  lemma OverrideCheckedAgainstRoot(c: ClassDef, mro: seq<ClassDef>, n: Name, v: Value)
    requires |mro| >= MroJump && n in MustImplement(mro)
    requires Lookup(c.attrs, n) == Some(v)
    requires HintsOf(v).None? || FetchHints(InterfaceBase(mro), n) != HintMap(HintsOf(v).value)
    ensures Validate([c] + mro).Rejected?
  {
    var mro' := [c] + mro;
    assert InterfaceBase(mro') == InterfaceBase(mro);
    assert mro'[0] == c;
    var k :| 0 <= k < |MustImplement(mro')| && MustImplement(mro')[k] == n;
    assert !Conforms(mro', n);
  }

  /** A class built by `__new__` declares exactly the methods of its class body (a callable that
      the body bound to "abstract_methods" is overwritten by the stored list and drops out). */
  lemma BuiltClassDeclares(name: string, body: seq<Item>, n: Name)
    requires Distinct(Keys(body))
    ensures Declares(ClassDef(name, InterfaceMeta.Prepared(body)), n) <==>
            n in InterfaceMeta.AllMethods(body) && n != AbstractMethodsKey
  {
    InterfaceMeta.PreparedLookup(body, AllMethodsKey);
  }

  /** Under a root built by `__new__`, every name in the root's abstract list, other than the two
      names `__new__` reserves for its lists, is an abstract method of the root's body, so `getattr`
      on the root never raises `AttributeError`; it yields the hints of that method, and
      `get_type_hints` raises only when the method itself has none. */
  lemma BuiltRootHints(mro: seq<ClassDef>, body: seq<Item>, n: Name)
    requires |mro| >= MroJump && Distinct(Keys(body))
    requires mro[|mro| - MroJump].attrs == InterfaceMeta.Prepared(body)
    requires n in MustImplement(mro) && n != AbstractMethodsKey && n != AllMethodsKey
    ensures Lookup(body, n).Some? && IsAbstract(Lookup(body, n).value)
    ensures !FetchHints(InterfaceBase(mro), n).NoAttribute?
    ensures FetchHints(InterfaceBase(mro), n).HintMap? <==> HintsOf(Lookup(body, n).value).Some?
    ensures FetchHints(InterfaceBase(mro), n).HintMap? ==>
              FetchHints(InterfaceBase(mro), n).hints == HintsOf(Lookup(body, n).value).value
  {
    var root := mro[|mro| - MroJump];
    InterfaceMeta.PreparedLookup(body, AbstractMethodsKey);
    assert InterfaceBase(mro)[0] == root;
    assert Resolve(InterfaceBase(mro), AbstractMethodsKey) == Lookup(root.attrs, AbstractMethodsKey);
    assert n in InterfaceMeta.AbstractMethods(body);
    var v := Lookup(body, n).value;
    InterfaceMeta.PreparedKeepsAttributes(body, n, v);
    assert Resolve(InterfaceBase(mro), n) == Lookup(root.attrs, n);
  }
}
