/** `InterfaceMeta.__new__` and the two name lists it computes from the class namespace. */
module InterfaceMeta {
  import opened Values
  import opened Namespaces

  /** `a` is `b` with some elements left out: the order of `b` is kept. */
  predicate Subseq(a: seq<Name>, b: seq<Name>)
    decreases |b|
  {
    a == [] || (b != [] && ((a[0] == b[0] && Subseq(a[1..], b[1..])) || Subseq(a, b[1..])))
  }

  /** `s` without any occurrence of `x`. */
  function Without(s: seq<Name>, x: Name): (r: seq<Name>)
    ensures forall y :: y in r <==> y in s && y != x
  {
    if s == [] then []
    else if s[0] == x then Without(s[1..], x)
    else [s[0]] + Without(s[1..], x)
  }

  lemma DistinctCons(x: Name, s: seq<Name>)
    requires x !in s && Distinct(s)
    ensures Distinct([x] + s)
  {
    forall i, j | 0 <= i < j < |[x] + s| ensures ([x] + s)[i] != ([x] + s)[j] {
      if i > 0 {
        assert ([x] + s)[i] == s[i - 1];
      }
      assert ([x] + s)[j] == s[j - 1];
    }
  }

  /** `_get_abstract_methods`: the names whose value is callable and tagged abstract, in
      namespace order; in a dict (distinct keys) each such name appears once and no other. */
  function AbstractMethods(items: seq<Item>): (r: seq<Name>)
    ensures Subseq(r, Keys(items))
    ensures forall n :: n in r ==> n in Keys(items)
    ensures Distinct(Keys(items)) ==> Distinct(r)
    ensures Distinct(Keys(items)) ==>
              forall n :: n in r <==> Lookup(items, n).Some? && IsAbstract(Lookup(items, n).value)
  {
    if items == [] then []
    else
      var rest := AbstractMethods(items[1..]);
      assert Keys(items[1..]) == Keys(items)[1..];
      assert Distinct(Keys(items)) ==> Distinct([items[0].0] + rest) by {
        if Distinct(Keys(items)) {
          DistinctTail(items);
          DistinctCons(items[0].0, rest);
        }
      }
      if IsAbstract(items[0].1) then [items[0].0] + rest else rest
  }

  /** `_get_all_methods`: the names whose value is callable or a `staticmethod`, in namespace
      order; in a dict each such name appears once and no other. */
  function AllMethods(items: seq<Item>): (r: seq<Name>)
    ensures Subseq(r, Keys(items))
    ensures forall n :: n in r ==> n in Keys(items)
    ensures Distinct(Keys(items)) ==> Distinct(r)
    ensures Distinct(Keys(items)) ==>
              forall n :: n in r <==> Lookup(items, n).Some? && IsMethod(Lookup(items, n).value)
  {
    if items == [] then []
    else
      var rest := AllMethods(items[1..]);
      assert Keys(items[1..]) == Keys(items)[1..];
      assert Distinct(Keys(items)) ==> Distinct([items[0].0] + rest) by {
        if Distinct(Keys(items)) {
          DistinctTail(items);
          DistinctCons(items[0].0, rest);
        }
      }
      if IsMethod(items[0].1) then [items[0].0] + rest else rest
  }

  /** Every abstract method is a method, and the abstract list is the all-methods list with some
      names left out, in the same order. */
  lemma {:induction false} AbstractMethodsWithinAll(items: seq<Item>)
    ensures Subseq(AbstractMethods(items), AllMethods(items))
  {
    if items != [] {
      AbstractMethodsWithinAll(items[1..]);
      var a, b := AbstractMethods(items[1..]), AllMethods(items[1..]);
      if IsAbstract(items[0].1) {
        assert ([items[0].0] + a)[1..] == a && ([items[0].0] + b)[1..] == b;
      } else if IsMethod(items[0].1) {
        assert ([items[0].0] + b)[1..] == b;
        assert a == [] || Subseq(a, ([items[0].0] + b)[1..]);
      }
    }
  }

  /** `return_type_wrapper(validate_arguments(f))`: a plain function that keeps the attributes
      (the abstract tag among them) and the annotations of `f`. */
  function GuardCallable(v: Value): Value
    requires v.Object?
  {
    Object(true, false, v.tagged, v.hints, true)
  }

  /** `staticmethod(return_type_wrapper(validate_arguments(f.__func__)))`: a new `staticmethod`,
      callable exactly when `staticmethod` objects are callable in the running Python. */
  function GuardStatic(v: Value): Value
    requires v.Object?
  {
    Object(v.callable, true, v.tagged, v.hints, true)
  }

  /** The value the loop of `__new__` writes back for `v`. Only methods are replaced, and the
      replacement looks the same to everything that later reads the class: it is a method, it is
      abstract exactly when `v` was, and it has the same type hints. */
  function Wrap(v: Value): (w: Value)
    ensures !IsMethod(v) ==> w == v
    ensures IsMethod(v) ==> w.Object? && w.guarded
    ensures IsMethod(w) == IsMethod(v) && IsCallable(w) == IsCallable(v)
    ensures IsAbstract(w) == IsAbstract(v) && HintsOf(w) == HintsOf(v)
  {
    var afterCallable := if IsCallable(v) then GuardCallable(v) else v;
    if IsStaticMethod(afterCallable) then GuardStatic(afterCallable) else afterCallable
  }

  function WrapAll(items: seq<Item>): (r: seq<Item>)
    ensures |r| == |items|
  {
    seq(|items|, i requires 0 <= i < |items| => (items[i].0, Wrap(items[i].1)))
  }

  lemma {:induction false} WrapAllKeys(items: seq<Item>)
    ensures Keys(WrapAll(items)) == Keys(items)
  {
    if items != [] {
      assert WrapAll(items)[1..] == WrapAll(items[1..]);
      WrapAllKeys(items[1..]);
    }
  }

  lemma {:induction false} WrapAllLookup(items: seq<Item>, k: Name)
    ensures Lookup(WrapAll(items), k) ==
            if Lookup(items, k).Some? then Some(Wrap(Lookup(items, k).value)) else None
  {
    if items != [] {
      assert WrapAll(items)[1..] == WrapAll(items[1..]);
      WrapAllLookup(items[1..], k);
    }
  }

  /** The namespace after `namespace["abstract_methods"] = ...`, the first step of `__new__`. */
  function WithAbstractList(items: seq<Item>): seq<Item> {
    Put(items, AbstractMethodsKey, NameList(AbstractMethods(items)))
  }

  /** The namespace `__new__` hands to `type.__new__`: the abstract list is stored first, the
      all-methods list is computed from that namespace and stored, and then every method is
      wrapped. */
  function Prepared(items: seq<Item>): seq<Item> {
    var withAbstract := WithAbstractList(items);
    WrapAll(Put(withAbstract, AllMethodsKey, NameList(AllMethods(withAbstract))))
  }

  /** `InterfaceMeta.__new__`, the part that rewrites the namespace in place. */
  method New(ns: Namespace)
    requires ns.Valid()
    modifies ns
    ensures ns.Valid()
    ensures ns.items == Prepared(old(ns.items))
  {
    ns.Set(AbstractMethodsKey, NameList(AbstractMethods(ns.items)));
    ns.Set(AllMethodsKey, NameList(AllMethods(ns.items)));
    ghost var named := ns.items;
    var i := 0;
    while i < |ns.items|
      invariant ns.Valid() && |ns.items| == |named| && 0 <= i <= |named|
      invariant forall j :: 0 <= j < i ==> ns.items[j] == (named[j].0, Wrap(named[j].1))
      invariant forall j :: i <= j < |named| ==> ns.items[j] == named[j]
    {
      var name := ns.items[i].0;
      var attribute := ns.items[i].1;
      if IsCallable(attribute) {
        attribute := GuardCallable(attribute);
      }
      if IsStaticMethod(attribute) {
        attribute := GuardStatic(attribute);
      }
      PutExisting(ns.items, i, attribute);
      ns.Set(name, attribute);
      i := i + 1;
    }
    assert ns.items == WrapAll(named);
  }

  /** Storing a value that is not a method under `k` removes `k` from the all-methods list and
      changes nothing else in it. */
  lemma {:induction false} AllMethodsAfterPut(items: seq<Item>, k: Name, v: Value)
    requires Distinct(Keys(items)) && !IsMethod(v)
    ensures AllMethods(Put(items, k, v)) == Without(AllMethods(items), k)
  {
    if items == [] {
    } else {
      assert Keys(items[1..]) == Keys(items)[1..];
      var rest := AllMethods(items[1..]);
      if items[0].0 == k {
        assert ([(k, v)] + items[1..])[1..] == items[1..];
        assert k !in rest;
        WithoutAbsent(rest, k);
      } else {
        AllMethodsAfterPut(items[1..], k, v);
        assert ([items[0]] + Put(items[1..], k, v))[1..] == Put(items[1..], k, v);
      }
    }
  }

  lemma {:induction false} WithoutAbsent(s: seq<Name>, x: Name)
    requires x !in s
    ensures Without(s, x) == s
  {
    if s != [] {
      WithoutAbsent(s[1..], x);
    }
  }

  /** The keys after `__new__`: the original keys in their order, then "abstract_methods" and
      "all_methods" for whichever of them was not already there. */
  lemma PreparedKeys(items: seq<Item>)
    requires Distinct(Keys(items))
    ensures Keys(Prepared(items)) ==
            Keys(items) + (if AbstractMethodsKey in Keys(items) then [] else [AbstractMethodsKey])
                        + (if AllMethodsKey in Keys(items) then [] else [AllMethodsKey])
    ensures Distinct(Keys(Prepared(items)))
  {
    var withAbstract := WithAbstractList(items);
    var withAll := Put(withAbstract, AllMethodsKey, NameList(AllMethods(withAbstract)));
    PutSpec(items, AbstractMethodsKey, NameList(AbstractMethods(items)), AllMethodsKey);
    PutSpec(withAbstract, AllMethodsKey, NameList(AllMethods(withAbstract)), AllMethodsKey);
    PutKeepsDistinct(items, AbstractMethodsKey, NameList(AbstractMethods(items)));
    PutKeepsDistinct(withAbstract, AllMethodsKey, NameList(AllMethods(withAbstract)));
    WrapAllKeys(withAll);
  }

  /** What `__new__` stores under each key: the abstract list computed from the namespace as the
      class body left it, the all-methods list of that namespace (without "abstract_methods",
      which by then holds a list), and every other value wrapped when it is a method and
      untouched otherwise. */
  lemma PreparedLookup(items: seq<Item>, k: Name)
    requires Distinct(Keys(items))
    ensures k == AbstractMethodsKey ==>
              Lookup(Prepared(items), k) == Some(NameList(AbstractMethods(items)))
    ensures k == AllMethodsKey ==>
              Lookup(Prepared(items), k) ==
              Some(NameList(Without(AllMethods(items), AbstractMethodsKey)))
    ensures k != AbstractMethodsKey && k != AllMethodsKey ==>
              Lookup(Prepared(items), k) ==
              if Lookup(items, k).Some? then Some(Wrap(Lookup(items, k).value)) else None
  {
    var abstractList := NameList(AbstractMethods(items));
    var withAbstract := WithAbstractList(items);
    var allList := NameList(AllMethods(withAbstract));
    var withAll := Put(withAbstract, AllMethodsKey, allList);
    WrapAllLookup(withAll, k);
    PutSpec(withAbstract, AllMethodsKey, allList, k);
    if k == AllMethodsKey {
      assert Lookup(withAll, k) == Some(allList);
      AllMethodsAfterPut(items, AbstractMethodsKey, abstractList);
    } else {
      assert Lookup(withAll, k) == Lookup(withAbstract, k);
      PutSpec(items, AbstractMethodsKey, abstractList, k);
    }
  }

  /** A non-method value of the class body is stored unchanged, and a method keeps what a later
      conformance check reads of it: its abstract tag and its type hints. */
  lemma PreparedKeepsAttributes(items: seq<Item>, k: Name, v: Value)
    requires Distinct(Keys(items))
    requires k != AbstractMethodsKey && k != AllMethodsKey && Lookup(items, k) == Some(v)
    ensures Lookup(Prepared(items), k).Some?
    ensures !IsMethod(v) ==> Lookup(Prepared(items), k) == Some(v)
    ensures IsMethod(v) ==> Lookup(Prepared(items), k).value.Object? && Lookup(Prepared(items), k).value.guarded
    ensures IsAbstract(Lookup(Prepared(items), k).value) == IsAbstract(v)
    ensures HintsOf(Lookup(Prepared(items), k).value) == HintsOf(v)
  {
    PreparedLookup(items, k);
  }
}
