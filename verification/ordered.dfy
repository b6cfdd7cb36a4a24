/**
 * JavaScript objects and `Map`s as their entries in insertion order, and
 * `Array.from(new Set(xs))`. Replacing the value of a key keeps the key's
 * position; a new key goes to the end.
 */
module Ordered {
  import opened Wrappers

  /** The keys of `o`, in order. */
  function KeysOf<K, V>(o: seq<(K, V)>): (ks: seq<K>)
    ensures |ks| == |o| && forall i | 0 <= i < |o| :: ks[i] == o[i].0
  {
    seq(|o|, i requires 0 <= i < |o| => o[i].0)
  }

  /** The values of `o`, in order: `Array.from(map.values())`. */
  function ValuesOf<K, V>(o: seq<(K, V)>): (vs: seq<V>)
    ensures |vs| == |o| && forall i | 0 <= i < |o| :: vs[i] == o[i].1
  {
    seq(|o|, i requires 0 <= i < |o| => o[i].1)
  }

  /** Every key occurs once. */
  predicate KeysDistinct<K(==), V>(o: seq<(K, V)>) {
    forall i, j | 0 <= i < j < |o| :: o[i].0 != o[j].0
  }

  /** The position of key `k`. */
  function Find<K(==), V>(o: seq<(K, V)>, k: K): (r: Option<nat>)
    ensures r.Some? ==> r.value < |o| && o[r.value].0 == k
    ensures r.Some? ==> forall i | 0 <= i < r.value :: o[i].0 != k
    ensures r.None? <==> forall i | 0 <= i < |o| :: o[i].0 != k
  {
    if |o| == 0 then None
    else if o[0].0 == k then Some(0)
    else match Find(o[1..], k)
      case Some(i) => Some(i + 1)
      case None => None
  }

  /** `o[k]` / `map.get(k)`, `None` for a missing key. */
  function Get<K(==), V>(o: seq<(K, V)>, k: K): (r: Option<V>)
    ensures r.Some? <==> k in KeysOf(o)
    ensures KeysDistinct(o) ==> forall i | 0 <= i < |o| && o[i].0 == k :: r == Some(o[i].1)
  {
    match Find(o, k)
    case Some(i) => Some(o[i].1)
    case None => None
  }

  /** `o[k] = v` / `map.set(k, v)` */
  function Put<K(==), V>(o: seq<(K, V)>, k: K, v: V): (r: seq<(K, V)>)
    ensures Find(o, k).Some? ==> |r| == |o| && KeysOf(r) == KeysOf(o)
    ensures Find(o, k).None? ==> r == o + [(k, v)]
    ensures KeysDistinct(o) ==> KeysDistinct(r)
    ensures |r| >= |o| && forall i | 0 <= i < |r| :: r[i] == (k, v) || (i < |o| && r[i] == o[i])
    ensures forall i | 0 <= i < |o| && o[i].0 != k :: r[i] == o[i]
  {
    match Find(o, k)
    case Some(i) => o[i := (k, v)]
    case None => o + [(k, v)]
  }

  /** After `Put`, `k` holds `v` and every other key holds what it held. */
  lemma PutGet<K, V>(o: seq<(K, V)>, k: K, v: V, j: K)
    requires KeysDistinct(o)
    ensures Get(Put(o, k, v), j) == if j == k then Some(v) else Get(o, j)
  {
    var r := Put(o, k, v);
    assert KeysDistinct(r);
    match Find(o, k)
    case Some(i) =>
      assert r[i] == (k, v);
      if j != k && Get(o, j).Some? {
        var n :| 0 <= n < |o| && o[n].0 == j;
        assert r[n] == o[n];
      }
      if j != k && Get(r, j).Some? {
        var n :| 0 <= n < |r| && r[n].0 == j;
        assert r[n] == o[n];
      }
    case None =>
      assert r[|o|] == (k, v);
      if j != k && Get(o, j).Some? {
        var n :| 0 <= n < |o| && o[n].0 == j;
        assert r[n] == o[n];
      }
      if j != k && Get(r, j).Some? {
        var n :| 0 <= n < |r| && r[n].0 == j;
        assert r[n] == o[n];
      }
  }

  /** `Put` adds `k` to the keys and keeps all others. */
  lemma PutKeys<K, V>(o: seq<(K, V)>, k: K, v: V)
    ensures forall j :: j in KeysOf(Put(o, k, v)) <==> j in KeysOf(o) || j == k
  {
    var r := Put(o, k, v);
    forall j | j in KeysOf(o)
      ensures j in KeysOf(r)
    {
      var i :| 0 <= i < |o| && o[i].0 == j;
      assert r[i].0 == j;
    }
    match Find(o, k)
    case Some(i) => assert r[i].0 == k;
    case None => assert r[|o|].0 == k;
  }

  /** `{ ...a, ...b }` */
  function Spread<K(==), V>(a: seq<(K, V)>, b: seq<(K, V)>): (r: seq<(K, V)>)
    ensures KeysDistinct(a) ==> KeysDistinct(r)
  {
    if |b| == 0 then a
    else Put(Spread(a, b[..|b| - 1]), b[|b| - 1].0, b[|b| - 1].1)
  }

  /** In `{ ...a, ...b }` a key of `b` holds `b`'s value, any other key `a`'s. */
  lemma {:induction false} SpreadGet<K, V>(a: seq<(K, V)>, b: seq<(K, V)>, k: K)
    requires KeysDistinct(a) && KeysDistinct(b)
    ensures Get(Spread(a, b), k) == if k in KeysOf(b) then Get(b, k) else Get(a, k)
  {
    if |b| > 0 {
      var n := |b| - 1;
      var front := b[..n];
      assert b == front + [b[n]];
      assert KeysDistinct(front);
      SpreadGet(a, front, k);
      PutGet(Spread(a, front), b[n].0, b[n].1, k);
      GetLast(front, b[n], k);
    }
  }

  /** Looking up a key in a list with one more pair at the end. */
  lemma GetLast<K, V>(front: seq<(K, V)>, last: (K, V), k: K)
    requires KeysDistinct(front + [last])
    ensures k in KeysOf(front + [last]) <==> k in KeysOf(front) || k == last.0
    ensures Get(front + [last], k) == if k == last.0 then Some(last.1) else Get(front, k)
  {
    var b := front + [last];
    assert KeysOf(b) == KeysOf(front) + [last.0];
    assert KeysDistinct(front) by {
      forall i, j | 0 <= i < j < |front|
        ensures front[i].0 != front[j].0
      {
        assert b[i] == front[i] && b[j] == front[j];
      }
    }
    if k == last.0 {
      assert b[|front|] == last;
    } else if k in KeysOf(front) {
      var i :| 0 <= i < |front| && front[i].0 == k;
      assert b[i] == front[i];
    }
  }

  /** `Array.from(new Set(xs))`: each element once, where it first occurs. */
  function Distinct<T(==)>(xs: seq<T>): (r: seq<T>)
    ensures forall i | 0 <= i < |r| :: r[i] in xs
    ensures forall i | 0 <= i < |xs| :: xs[i] in r
  {
    if |xs| == 0 then []
    else
      var front := Distinct(xs[..|xs| - 1]);
      assert forall i | 0 <= i < |xs| - 1 :: xs[i] == xs[..|xs| - 1][i];
      if xs[|xs| - 1] in xs[..|xs| - 1] then front else front + [xs[|xs| - 1]]
  }

  /** `Distinct` keeps exactly the elements of its input. */
  lemma DistinctMembers<T>(xs: seq<T>, x: T)
    ensures x in Distinct(xs) <==> x in xs
  {
    if x in xs {
      var i :| 0 <= i < |xs| && xs[i] == x;
    }
  }

  /** Appending an element adds it at the end exactly when it is new. */
  lemma DistinctSnoc<T>(xs: seq<T>, x: T)
    ensures Distinct(xs + [x]) == if x in Distinct(xs) then Distinct(xs) else Distinct(xs) + [x]
  {
    assert (xs + [x])[..|xs|] == xs;
    DistinctMembers(xs, x);
  }

  /** No element occurs twice. */
  predicate NoDuplicates<T(==)>(xs: seq<T>) {
    forall i, j | 0 <= i < j < |xs| :: xs[i] != xs[j]
  }

  /** `Distinct` leaves no duplicates. */
  lemma {:induction false} DistinctNoDuplicates<T>(xs: seq<T>)
    ensures NoDuplicates(Distinct(xs))
  {
    if |xs| > 0 {
      DistinctNoDuplicates(xs[..|xs| - 1]);
    }
  }
}
