/** Insertion-ordered dictionaries: a key keeps its place when its value is replaced and goes to the
    end when it is inserted again. */
module Dicts {
  import opened Common

  datatype Dict<K(==), V> = Dict(order: seq<K>, items: map<K, V>) {
    ghost predicate Valid() {
      && NoDup(order)
      && (forall k :: k in items ==> k in order)
      && (forall i :: 0 <= i < |order| ==> order[i] in items)
    }

    function Put(k: K, v: V): Dict<K, V> {
      Dict(if k in items then order else order + [k], items[k := v])
    }

    function DropAll(ks: set<K>): Dict<K, V> {
      Dict(WithoutAll(order, ks), items - ks)
    }

    function Drop(k: K): Dict<K, V> {
      DropAll({k})
    }

    function PopFront(): Dict<K, V>
      requires order != []
    {
      Dict(order[1..], items - {order[0]})
    }

    function MoveToEnd(k: K): Dict<K, V>
      requires k in items
    {
      Dict(WithoutAll(order, {k}) + [k], items)
    }
  }

  function Elems<K(==)>(s: seq<K>): set<K> {
    set k | k in s
  }

  lemma ElemsSnoc<K>(s: seq<K>, n: nat)
    requires n < |s|
    ensures Elems(s[..n + 1]) == Elems(s[..n]) + {s[n]}
  {
    assert s[..n + 1] == s[..n] + [s[n]];
  }

  function WithoutAll<K>(s: seq<K>, ks: set<K>): seq<K> {
    if s == [] then []
    else WithoutAll(s[..|s| - 1], ks) + if s[|s| - 1] in ks then [] else [s[|s| - 1]]
  }

  lemma {:induction false} WithoutAllHas<K>(s: seq<K>, ks: set<K>, x: K)
    ensures x in WithoutAll(s, ks) <==> x in s && x !in ks
  {
    if s != [] {
      WithoutAllHas(s[..|s| - 1], ks, x);
    }
  }

  lemma {:induction false} WithoutAllNoDup<K>(s: seq<K>, ks: set<K>)
    requires NoDup(s)
    ensures NoDup(WithoutAll(s, ks))
  {
    if s != [] {
      var n := |s| - 1;
      WithoutAllNoDup(s[..n], ks);
      WithoutAllHas(s[..n], ks, s[n]);
      assert s[n] !in s[..n];
    }
  }

  lemma {:induction false} WithoutAllTwice<K>(s: seq<K>, a: set<K>, b: set<K>)
    ensures WithoutAll(WithoutAll(s, a), b) == WithoutAll(s, a + b)
  {
    if s != [] {
      var n := |s| - 1;
      WithoutAllTwice(s[..n], a, b);
      var t := WithoutAll(s[..n], a);
      if s[n] !in a {
        assert WithoutAll(s, a) == t + [s[n]];
        assert (t + [s[n]])[..|t|] == t;
      } else {
        assert WithoutAll(s, a) == t;
      }
    }
  }

  lemma {:induction false} WithoutAllDisjoint<K>(s: seq<K>, ks: set<K>)
    requires forall x :: x in s ==> x !in ks
    ensures WithoutAll(s, ks) == s
  {
    if s != [] {
      WithoutAllDisjoint(s[..|s| - 1], ks);
    }
  }

  lemma PutValid<K, V>(d: Dict<K, V>, k: K, v: V)
    requires d.Valid()
    ensures d.Put(k, v).Valid()
  {
  }

  lemma DropAllValid<K, V>(d: Dict<K, V>, ks: set<K>)
    requires d.Valid()
    ensures d.DropAll(ks).Valid()
  {
    WithoutAllNoDup(d.order, ks);
    var order := d.DropAll(ks).order;
    forall i | 0 <= i < |order|
      ensures order[i] in d.items && order[i] !in ks
    {
      WithoutAllHas(d.order, ks, order[i]);
    }
    forall k | k in d.items && k !in ks
      ensures k in order
    {
      WithoutAllHas(d.order, ks, k);
    }
  }

  lemma PopFrontValid<K, V>(d: Dict<K, V>)
    requires d.Valid() && d.order != []
    ensures d.PopFront().Valid()
    ensures d.order[0] in d.items
  {
    assert forall k :: k in d.order <==> k == d.order[0] || k in d.order[1..];
  }

  lemma MoveToEndValid<K, V>(d: Dict<K, V>, k: K)
    requires d.Valid() && k in d.items
    ensures d.MoveToEnd(k).Valid()
  {
    WithoutAllNoDup(d.order, {k});
    var rest := WithoutAll(d.order, {k});
    forall i | 0 <= i < |rest|
      ensures rest[i] in d.items && rest[i] != k
    {
      WithoutAllHas(d.order, {k}, rest[i]);
    }
    forall x | x in d.items && x != k
      ensures x in rest
    {
      WithoutAllHas(d.order, {k}, x);
    }
  }

  /** The number of entries is the number of keys listed. */
  lemma Size<K, V>(d: Dict<K, V>)
    requires d.Valid()
    ensures |d.items| == |d.order|
  {
    NoDupCard(d.order);
    assert d.items.Keys == set x | x in d.order;
  }

  lemma PutSize<K, V>(m: map<K, V>, k: K, v: V)
    ensures |m[k := v]| == |m| + if k in m then 0 else 1
  {
    assert m[k := v].Keys == m.Keys + {k};
  }

  lemma DropSize<K, V>(m: map<K, V>, ks: set<K>)
    ensures |m - ks| <= |m|
    ensures ks <= m.Keys ==> |m - ks| == |m| - |ks|
  {
    assert (m - ks).Keys == m.Keys - ks;
  }
}
