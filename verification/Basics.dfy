// Shared value types and the time axis.
module Basics {

  datatype Option<+T> = None | Some(value: T)

  datatype Result<+T, +E> = Success(value: T) | Failure(error: E)

  // Instants and durations, in nanoseconds.
  type Time = int

  const SECOND: int := 1_000_000_000
  const MINUTE: int := 60 * SECOND
  const HOUR: int := 60 * MINUTE
  const DAY: int := 24 * HOUR

  // n characters in a row, from this one.
  function Range(first: char, n: nat): seq<char>
    requires first as int + n < 0xD800
  {
    seq(n, i requires 0 <= i < n => first + i as char)
  }

  method Pick<T(==)>(s: set<T>) returns (x: T)
    requires s != {}
    ensures x in s
  {
    x :| x in s;
  }

  // ----- maps of maps whose inner maps are never empty -----

  function Inner<K, I, V>(m: map<K, map<I, V>>, k: K): map<I, V> { if k in m then m[k] else map[] }

  predicate Has<K, I, V>(m: map<K, map<I, V>>, k: K, i: I) { k in m && i in m[k] }

  function Put<K, I, V>(m: map<K, map<I, V>>, k: K, i: I, v: V): map<K, map<I, V>> { m[k := Inner(m, k)[i := v]] }

  // Removes one entry, and the inner map with its last entry.
  function Cut<K, I, V>(m: map<K, map<I, V>>, k: K, i: I): map<K, map<I, V>> {
    if k !in m then m
    else
      var rest := m[k] - {i};
      if |rest| == 0 then m - {k} else m[k := rest]
  }

  ghost predicate NoEmptyInner<K, I, V>(m: map<K, map<I, V>>) { forall k :: k in m ==> m[k] != map[] }

  lemma CutEntries<K, I, V>(m: map<K, map<I, V>>, k: K, i: I)
    ensures forall k', i' :: Has(Cut(m, k, i), k', i') <==> Has(m, k', i') && !(k' == k && i' == i)
    ensures forall k', i' :: Has(Cut(m, k, i), k', i') ==> Cut(m, k, i)[k'][i'] == m[k'][i']
    ensures NoEmptyInner(m) ==> NoEmptyInner(Cut(m, k, i))
    ensures forall k' :: k' in Cut(m, k, i) ==> k' in m && |Cut(m, k, i)[k']| <= |m[k']|
  {
    if k in m {
      var rest := m[k] - {i};
      SmallerMap(m[k], i);
      assert forall i' :: i' in m[k] && i' != i ==> i' in rest;
      assert forall i' :: i' in rest ==> |rest| != 0;
    }
  }

  lemma SmallerMap<I, V>(m: map<I, V>, i: I)
    ensures |m - {i}| <= |m|
  {
    var rest := m - {i};
    if i in m {
      assert m == rest[i := m[i]];
    } else {
      assert m == rest;
    }
  }

  lemma PutEntries<K, I, V>(m: map<K, map<I, V>>, k: K, i: I, v: V)
    ensures forall k', i' :: Has(Put(m, k, i, v), k', i') <==> Has(m, k', i') || (k' == k && i' == i)
    ensures forall k', i' | Has(Put(m, k, i, v), k', i') ::
              Put(m, k, i, v)[k'][i'] == if k' == k && i' == i then v else m[k'][i']
    ensures NoEmptyInner(m) ==> NoEmptyInner(Put(m, k, i, v))
    ensures |Put(m, k, i, v)[k]| <= |Inner(m, k)| + 1
  {
    assert i in Put(m, k, i, v)[k];
  }
}
