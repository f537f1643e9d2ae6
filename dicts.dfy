/** Python's dict as the back end uses it: entries kept in insertion order,
    each key once; assigning to an existing key replaces its value in place. */
module Dicts {
  import opened Wrappers

  type Dict<K, V> = seq<(K, V)>

  function Keys<K, V>(d: Dict<K, V>): (ks: seq<K>)
    ensures |ks| == |d|
    ensures forall i :: 0 <= i < |d| ==> ks[i] == d[i].0
  {
    if d == [] then [] else [d[0].0] + Keys(d[1..])
  }

  ghost predicate DistinctKeys<K, V>(d: Dict<K, V>) {
    forall i, j :: 0 <= i < j < |d| ==> d[i].0 != d[j].0
  }

  /** `d.get(k)`. */
  function Get<K(==), V>(d: Dict<K, V>, k: K): (r: Option<V>)
    ensures r.None? <==> k !in Keys(d)
    ensures r.Some? ==> (k, r.value) in d
  {
    if d == [] then None
    else if d[0].0 == k then Some(d[0].1)
    else Get(d[1..], k)
  }

  /** `d[k] = v`: an existing key keeps its position, a new key goes last. */
  function Put<K(==), V>(d: Dict<K, V>, k: K, v: V): (r: Dict<K, V>)
    ensures k in Keys(d) ==> Keys(r) == Keys(d)
    ensures k !in Keys(d) ==> Keys(r) == Keys(d) + [k]
  {
    if d == [] then [(k, v)]
    else if d[0].0 == k then
      assert Keys([(k, v)] + d[1..]) == [k] + Keys(d[1..]);
      [(k, v)] + d[1..]
    else
      var rest := Put(d[1..], k, v);
      assert Keys(d) == [d[0].0] + Keys(d[1..]);
      assert Keys([d[0]] + rest) == [d[0].0] + Keys(rest);
      [d[0]] + rest
  }

  /** After `d[k] = v`, k maps to v and every other key to what it mapped to. */
  lemma {:induction false} PutGet<K, V>(d: Dict<K, V>, k: K, v: V, k': K)
    ensures Get(Put(d, k, v), k') == if k' == k then Some(v) else Get(d, k')
  {
    if d != [] && d[0].0 != k {
      PutGet(d[1..], k, v, k');
      assert Put(d, k, v)[1..] == Put(d[1..], k, v);
    }
  }

  /** Every entry after `d[k] = v` is the new one or was there before. */
  lemma {:induction false} PutEntries<K, V>(d: Dict<K, V>, k: K, v: V, e: (K, V))
    requires e in Put(d, k, v)
    ensures e == (k, v) || e in d
  {
    if d != [] && d[0].0 != k {
      var rest := Put(d[1..], k, v);
      assert Put(d, k, v) == [d[0]] + rest;
      if e != d[0] {
        PutEntries(d[1..], k, v, e);
      }
    }
  }

  /** `d[k] = v` keeps every key and has k. */
  lemma PutKeys<K, V>(d: Dict<K, V>, k: K, v: V)
    ensures k in Keys(Put(d, k, v))
    ensures forall x :: x in Keys(d) ==> x in Keys(Put(d, k, v))
  {
  }

  /** `d[k] = v` keeps the keys distinct. */
  lemma PutDistinct<K, V>(d: Dict<K, V>, k: K, v: V)
    requires DistinctKeys(d)
    ensures DistinctKeys(Put(d, k, v))
  {
    var r := Put(d, k, v);
    assert Keys(r) == Keys(d) || Keys(r) == Keys(d) + [k];
    forall i, j | 0 <= i < j < |r| ensures r[i].0 != r[j].0 {
      assert Keys(r)[i] == r[i].0 && Keys(r)[j] == r[j].0;
      if j == |d| {
        assert k !in Keys(d);
        assert Keys(d)[i] == d[i].0;
      } else {
        assert Keys(d)[i] == d[i].0 && Keys(d)[j] == d[j].0;
      }
    }
  }
}
