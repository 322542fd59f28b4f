/** Queries over the documents of a collection, with the meaning the reservation
    service relies on: the first document with a given key (`Array.prototype.find`),
    every document with a given key (an equality filter of `collection.find`), and
    removal of the first document with a given key (`collection.deleteOne`).
    Keys are read through a key function such as `PlateauKey`, so one definition
    serves items, plateaus and reservations. */
module Queries {

  datatype Option<+T> = None | Some(value: T)

  datatype Result<+T, +E> = Success(value: T) | Failure(error: E)

  /** Keys are pairwise distinct (what a unique `_id` index guarantees). */
  ghost predicate UniqueKeys<T, K>(s: seq<T>, key: T -> K) {
    forall i, j :: 0 <= i < |s| && 0 <= j < |s| && i != j ==> key(s[i]) != key(s[j])
  }

  /** Index of the first element of `s` whose key is `id`, if there is one. */
  function FirstIndex<T, K(==)>(s: seq<T>, key: T -> K, id: K): (r: Option<nat>)
    ensures r.Some? ==> r.value < |s| && key(s[r.value]) == id
    ensures r.Some? ==> forall j :: 0 <= j < r.value ==> key(s[j]) != id
    ensures r.None? <==> forall j :: 0 <= j < |s| ==> key(s[j]) != id
  {
    if |s| == 0 then None
    else if key(s[0]) == id then Some(0)
    else match FirstIndex(s[1..], key, id)
      case None => None
      case Some(i) => Some(i + 1)
  }

  /** The first element of `s` whose key is `id`; `None` plays the part of `undefined`. */
  function Find<T, K(==)>(s: seq<T>, key: T -> K, id: K): (r: Option<T>)
    ensures r.None? <==> forall x :: x in s ==> key(x) != id
    ensures r.Some? ==> r.value in s && key(r.value) == id
    ensures r.Some? ==> exists i :: 0 <= i < |s| && s[i] == r.value && forall j :: 0 <= j < i ==> key(s[j]) != id
  {
    match FirstIndex(s, key, id)
    case None => None
    case Some(i) => Some(s[i])
  }

  /** When keys are unique, the lookup finds exactly the element carrying the key. */
  lemma FindUnique<T, K>(s: seq<T>, key: T -> K, x: T)
    requires UniqueKeys(s, key) && x in s
    ensures Find(s, key, key(x)) == Some(x)
  {
    var k :| 0 <= k < |s| && s[k] == x;
    assert FirstIndex(s, key, key(x)) == Some(k);
  }

  /** The elements of `s` whose key is `v`, in their order in `s`. */
  function Filter<T, K(==)>(s: seq<T>, key: T -> K, v: K): (r: seq<T>)
    ensures |r| <= |s|
    ensures forall x :: x in r ==> x in s && key(x) == v
    ensures forall x :: x in s && key(x) == v ==> x in r
  {
    if |s| == 0 then []
    else if key(s[0]) == v then [s[0]] + Filter(s[1..], key, v)
    else Filter(s[1..], key, v)
  }

  /** `s` without its first element whose key is `id`: at most one element goes,
      it is the first that carries the key, every element with another key
      keeps its count, and the remaining elements keep their order. */
  function RemoveFirst<T, K(==)>(s: seq<T>, key: T -> K, id: K): (r: seq<T>)
    ensures (forall x :: x in s ==> key(x) != id) ==> r == s
    ensures (exists x :: x in s && key(x) == id) ==> |r| == |s| - 1
    ensures multiset(r) <= multiset(s)
    ensures forall x :: x in multiset(s) - multiset(r) ==> key(x) == id
    ensures forall x :: x in s && key(x) != id ==> multiset(r)[x] == multiset(s)[x]
    ensures (exists x :: x in s && key(x) == id) ==>
      exists i :: 0 <= i < |s| && key(s[i]) == id && (forall j :: 0 <= j < i ==> key(s[j]) != id)
                && r == s[..i] + s[i+1..]
  {
    match FirstIndex(s, key, id)
    case None => s
    case Some(i) =>
      assert s == s[..i] + [s[i]] + s[i+1..];
      s[..i] + s[i+1..]
  }
}
