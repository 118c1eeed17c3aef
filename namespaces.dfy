/** A class namespace: a Python `dict`, which keeps its keys in insertion order. */
module Namespaces {
  import opened Values

  /** One `(key, value)` pair of `namespace.items()`. */
  type Item = (Name, Value)

  function Keys(items: seq<Item>): (ks: seq<Name>)
    ensures |ks| == |items|
    ensures forall i :: 0 <= i < |items| ==> ks[i] == items[i].0
  {
    if items == [] then [] else [items[0].0] + Keys(items[1..])
  }

  predicate Distinct(s: seq<Name>) {
    forall i, j :: 0 <= i < j < |s| ==> s[i] != s[j]
  }

  /** `d.get(k)`. */
  function Lookup(items: seq<Item>, k: Name): Option<Value> {
    if items == [] then None
    else if items[0].0 == k then Some(items[0].1)
    else Lookup(items[1..], k)
  }

  /** `d[k] = v`: an existing key keeps its place and takes the new value; a new key goes last. */
  function Put(items: seq<Item>, k: Name, v: Value): seq<Item> {
    if items == [] then [(k, v)]
    else if items[0].0 == k then [(k, v)] + items[1..]
    else [items[0]] + Put(items[1..], k, v)
  }

  lemma {:induction false} LookupFound(items: seq<Item>, k: Name)
    ensures Lookup(items, k).Some? <==> k in Keys(items)
  {
    if items != [] {
      LookupFound(items[1..], k);
      assert Keys(items) == [items[0].0] + Keys(items[1..]);
    }
  }

  /** The dictionary laws of `d[k] = v`: reading `k` gives `v`, reading any other key gives what
      it gave before, the key order is kept and a new key is appended. */
  lemma {:induction false} PutSpec(items: seq<Item>, k: Name, v: Value, k': Name)
    ensures Lookup(Put(items, k, v), k') == if k' == k then Some(v) else Lookup(items, k')
    ensures Keys(Put(items, k, v)) == if k in Keys(items) then Keys(items) else Keys(items) + [k]
  {
    if items != [] {
      assert Keys(items) == [items[0].0] + Keys(items[1..]);
      if items[0].0 != k {
        PutSpec(items[1..], k, v, k');
        var rest := Put(items[1..], k, v);
        assert Keys([items[0]] + rest) == [items[0].0] + Keys(rest);
      } else {
        assert Keys([(k, v)] + items[1..]) == [k] + Keys(items[1..]);
      }
    }
  }

  lemma DistinctSnoc(s: seq<Name>, x: Name)
    requires Distinct(s) && x !in s
    ensures Distinct(s + [x])
  {
    forall i, j | 0 <= i < j < |s + [x]| ensures (s + [x])[i] != (s + [x])[j] {
      assert (s + [x])[i] == s[i];
      if j < |s| {
        assert (s + [x])[j] == s[j];
      }
    }
  }

  /** The tail of a dict with distinct keys has distinct keys, none of them the first key. */
  lemma DistinctTail(items: seq<Item>)
    requires Distinct(Keys(items)) && items != []
    ensures Distinct(Keys(items[1..])) && items[0].0 !in Keys(items[1..])
  {
    var ks := Keys(items);
    assert Keys(items[1..]) == ks[1..];
    forall j | 0 <= j < |ks[1..]| ensures ks[1..][j] != items[0].0 {
      assert ks[1..][j] == ks[j + 1] && ks[0] == items[0].0;
    }
  }

  lemma PutKeepsDistinct(items: seq<Item>, k: Name, v: Value)
    requires Distinct(Keys(items))
    ensures Distinct(Keys(Put(items, k, v)))
  {
    PutSpec(items, k, v, k);
    if k !in Keys(items) {
      DistinctSnoc(Keys(items), k);
    }
  }

  /** Writing to the key at position `i` of a dict with distinct keys rewrites that position. */
  lemma {:induction false} PutExisting(items: seq<Item>, i: nat, v: Value)
    requires Distinct(Keys(items)) && i < |items|
    ensures Put(items, items[i].0, v) == items[i := (items[i].0, v)]
  {
    var k := items[i].0;
    if i > 0 {
      DistinctTail(items);
      assert items[1..][i - 1] == items[i];
      assert k in Keys(items[1..]);
      PutExisting(items[1..], i - 1, v);
      assert Put(items, k, v) == [items[0]] + Put(items[1..], k, v);
      var front := [items[0]] + items[1..][i - 1 := (k, v)];
      forall j | 0 <= j < |items| ensures front[j] == items[i := (k, v)][j] {
        if j > 0 {
          assert front[j] == items[1..][i - 1 := (k, v)][j - 1];
        }
      }
      assert front == items[i := (k, v)];
    }
  }

  /** Where `d[k] = v` writes, once a search has found the first position holding `k`. */
  lemma {:induction false} PutAfterSearch(items: seq<Item>, i: nat, k: Name, v: Value)
    requires i <= |items|
    requires forall j :: 0 <= j < i ==> items[j].0 != k
    requires i < |items| ==> items[i].0 == k
    ensures Put(items, k, v) == if i < |items| then items[i := (k, v)] else items + [(k, v)]
  {
    if i > 0 {
      PutAfterSearch(items[1..], i - 1, k, v);
    }
  }

  /** A class namespace being built: the dict the metaclass receives and rewrites. */
  class Namespace {
    var items: seq<Item>

    ghost predicate Valid()
      reads this
    {
      Distinct(Keys(items))
    }

    constructor (body: seq<Item>)
      requires Distinct(Keys(body))
      ensures Valid() && items == body
    {
      items := body;
    }

    /** `namespace[k] = v`. */
    method Set(k: Name, v: Value)
      requires Valid()
      modifies this
      ensures Valid()
      ensures items == Put(old(items), k, v)
    {
      var i := 0;
      while i < |items| && items[i].0 != k
        invariant 0 <= i <= |items|
        invariant forall j :: 0 <= j < i ==> items[j].0 != k
      {
        i := i + 1;
      }
      PutAfterSearch(items, i, k, v);
      PutKeepsDistinct(items, k, v);
      if i < |items| {
        items := items[i := (k, v)];
      } else {
        items := items + [(k, v)];
      }
    }
  }
}
