/**
 JavaScript's `Set` and `Map` iterate in insertion order. This module models a `Set`
 as a sequence without duplicates and a `Map` as a sequence of keys plus a `map`,
 so that the order in which the server walks them is part of the model.
 */
module Ordered {

  /** No element occurs twice. */
  predicate NoDup<T(==)>(s: seq<T>) {
    forall i, j :: 0 <= i < j < |s| ==> s[i] != s[j]
  }

  /** The elements of a sequence, forgetting order. */
  function Elems<T>(s: seq<T>): set<T> {
    set x | x in s
  }

  lemma EmptyElems<T>(s: seq<T>)
    ensures Elems(s) == {} <==> |s| == 0
  {
    if |s| > 0 {
      assert s[0] in Elems(s);
    }
  }

  /** Without duplicates, a sequence has as many elements as its set. */
  lemma {:induction false} NoDupSize<T>(s: seq<T>)
    requires NoDup(s)
    ensures |Elems(s)| == |s|
  {
    if |s| > 0 {
      NoDupSize(s[1..]);
      assert s == [s[0]] + s[1..];
      assert Elems(s) == {s[0]} + Elems(s[1..]);
      assert s[0] !in Elems(s[1..]);
    }
  }

  /** `Set.prototype.add`: appends `x` unless it is already present. */
  function Add<T(==)>(s: seq<T>, x: T): (r: seq<T>)
    ensures Elems(r) == Elems(s) + {x}
    ensures NoDup(s) ==> NoDup(r)
    ensures x in s ==> r == s
    ensures x !in s ==> |r| == |s| + 1 && r[|s|] == x
    ensures |s| <= |r| && r[..|s|] == s
  {
    if x in s then s else s + [x]
  }

  /** The position of the first occurrence of `x`. */
  function IndexOf<T(==)>(s: seq<T>, x: T): (i: nat)
    requires x in s
    ensures i < |s| && s[i] == x && x !in s[..i]
  {
    if s[0] == x then 0
    else
      var j := IndexOf(s[1..], x);
      assert s[..j + 1] == [s[0]] + s[1..][..j];
      j + 1
  }

  /** `Set.prototype.delete`: drops `x`, keeping the order of the others. */
  function Remove<T(==)>(s: seq<T>, x: T): (r: seq<T>)
    ensures Elems(r) == Elems(s) - {x}
    ensures NoDup(s) ==> NoDup(r)
    ensures x !in s ==> r == s
    ensures NoDup(s) && x in s ==> |r| == |s| - 1
  {
    if |s| == 0 then []
    else if s[0] == x then Remove(s[1..], x)
    else
      var rest := Remove(s[1..], x);
      assert s == [s[0]] + s[1..];
      assert Elems(s) == {s[0]} + Elems(s[1..]);
      assert Elems([s[0]] + rest) == {s[0]} + Elems(rest);
      assert NoDup(s) ==> s[0] !in s[1..];
      [s[0]] + rest
  }

  /** Removing a present element closes the gap it leaves: the others keep their order. */
  lemma {:induction false} RemoveKeepsOrder<T>(s: seq<T>, x: T)
    requires NoDup(s) && x in s
    ensures Remove(s, x) == s[..IndexOf(s, x)] + s[IndexOf(s, x) + 1..]
  {
    if s[0] == x {
      assert x !in s[1..];
    } else {
      var t := s[1..];
      assert NoDup(t);
      RemoveKeepsOrder(t, x);
      var j := IndexOf(t, x);
      assert IndexOf(s, x) == j + 1;
      assert s[..j + 1] == [s[0]] + t[..j];
      assert s[j + 2..] == t[j + 1..];
    }
  }

  /**
   A JavaScript `Map`: `entries` holds the bindings, `keys` the order in which the
   keys were first inserted.
   */
  datatype OrderedMap<K, V> = OrderedMap(keys: seq<K>, entries: map<K, V>)

  ghost predicate Valid<K, V>(m: OrderedMap<K, V>) {
    NoDup(m.keys) && Elems(m.keys) == m.entries.Keys
  }

  function EmptyMap<K(==), V>(): (m: OrderedMap<K, V>)
    ensures Valid(m) && m.entries == map[]
  {
    OrderedMap([], map[])
  }

  /** `Map.prototype.set`: a new key goes last, an existing key keeps its place. */
  function Put<K(==), V>(m: OrderedMap<K, V>, k: K, v: V): (r: OrderedMap<K, V>)
    ensures r.entries == m.entries[k := v]
    ensures Valid(m) ==> Valid(r)
    ensures k in m.keys ==> r.keys == m.keys
    ensures k !in m.keys ==> r.keys == m.keys + [k]
  {
    OrderedMap(Add(m.keys, k), m.entries[k := v])
  }

  /** `Map.prototype.delete`: drops the binding and the key's place in the order. */
  function Delete<K(==), V>(m: OrderedMap<K, V>, k: K): (r: OrderedMap<K, V>)
    ensures r.entries == m.entries - {k}
    ensures Valid(m) ==> Valid(r)
    ensures k !in m.keys ==> r.keys == m.keys
    ensures NoDup(m.keys) && k in m.keys ==>
              r.keys == m.keys[..IndexOf(m.keys, k)] + m.keys[IndexOf(m.keys, k) + 1..]
  {
    if NoDup(m.keys) && k in m.keys then
      RemoveKeepsOrder(m.keys, k);
      OrderedMap(Remove(m.keys, k), m.entries - {k})
    else
      OrderedMap(Remove(m.keys, k), m.entries - {k})
  }
}
