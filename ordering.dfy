/** Python's slicing `s[:k]`, its stable `sort(key=..., reverse=True)` and
    `sorted(set(...))` of strings, as used by the back end. */
module Ordering {

  /** Python's `s[:k]` for any int k: a negative k counts from the end. */
  function PyTake<T>(s: seq<T>, k: int): (r: seq<T>)
    ensures |r| <= |s| && r == s[..|r|]
    ensures k >= 0 ==> |r| == if k <= |s| then k else |s|
    ensures k < 0 ==> |r| == if |s| + k >= 0 then |s| + k else 0
  {
    if k >= 0 then (if k <= |s| then s[..k] else s)
    else if |s| + k >= 0 then s[..|s| + k]
    else []
  }

  /** The keys are non-increasing from left to right. */
  ghost predicate NonIncreasing<T>(s: seq<T>, key: T -> real) {
    forall i, j :: 0 <= i < j < |s| ==> key(s[i]) >= key(s[j])
  }

  /** The elements of s whose key is v, in their order in s. */
  function WithKey<T>(s: seq<T>, key: T -> real, v: real): seq<T> {
    if s == [] then []
    else if key(s[0]) == v then [s[0]] + WithKey(s[1..], key, v)
    else WithKey(s[1..], key, v)
  }

  /** Puts x in front of the first element whose key is not larger than its
      own, so that it stays ahead of the elements with an equal key. */
  function InsertDesc<T>(x: T, t: seq<T>, key: T -> real): (r: seq<T>)
    requires NonIncreasing(t, key)
    ensures multiset(r) == multiset(t) + multiset{x}
    ensures NonIncreasing(r, key)
    ensures r != [] && (r[0] == x || (t != [] && r[0] == t[0]))
  {
    if t == [] || key(t[0]) <= key(x) then [x] + t
    else
      assert t == [t[0]] + t[1..];
      var rest := InsertDesc(x, t[1..], key);
      NonIncreasingCons(t[0], rest, key);
      [t[0]] + rest
  }

  /** An element whose key is at least the first key of a non-increasing
      list can go in front of it. */
  lemma NonIncreasingCons<T>(h: T, rest: seq<T>, key: T -> real)
    requires NonIncreasing(rest, key)
    requires rest == [] || key(h) >= key(rest[0])
    ensures NonIncreasing([h] + rest, key)
  {
    var r := [h] + rest;
    forall i, j | 0 <= i < j < |r| ensures key(r[i]) >= key(r[j]) {
      if i == 0 {
        assert r[j] == rest[j - 1];
        if j > 1 {
          assert key(rest[0]) >= key(rest[j - 1]);
        }
      } else {
        assert r[i] == rest[i - 1] && r[j] == rest[j - 1];
      }
    }
  }

  /** `sorted(s, key=key, reverse=True)`: Python's sort is stable, also in
      reverse, so elements with equal keys keep their order. */
  function SortDesc<T>(s: seq<T>, key: T -> real): (r: seq<T>)
    ensures multiset(r) == multiset(s)
    ensures NonIncreasing(r, key)
  {
    if s == [] then []
    else
      assert s == [s[0]] + s[1..];
      InsertDesc(s[0], SortDesc(s[1..], key), key)
  }

  lemma {:induction false} InsertDescStable<T>(x: T, t: seq<T>, key: T -> real, v: real)
    requires NonIncreasing(t, key)
    ensures WithKey(InsertDesc(x, t, key), key, v)
         == if key(x) == v then [x] + WithKey(t, key, v) else WithKey(t, key, v)
  {
    if t == [] || key(t[0]) <= key(x) {
      assert ([x] + t)[1..] == t;
    } else {
      InsertDescStable(x, t[1..], key, v);
      var r := InsertDesc(x, t, key);
      assert r[1..] == InsertDesc(x, t[1..], key);
      if key(x) == v {
        assert key(t[0]) != v;
      }
    }
  }

  /** Stability: for every key value, the elements with that key appear in
      the sorted list in the same order as in the input. */
  lemma {:induction false} SortDescStable<T>(s: seq<T>, key: T -> real, v: real)
    ensures WithKey(SortDesc(s, key), key, v) == WithKey(s, key, v)
  {
    if s != [] {
      SortDescStable(s[1..], key, v);
      InsertDescStable(s[0], SortDesc(s[1..], key), key, v);
    }
  }

  /** In a list sorted by decreasing key, an element outside a prefix has a
      key no larger than any element inside it. */
  lemma PrefixDominates<T>(sorted: seq<T>, key: T -> real, k: nat, m: T, n: T)
    requires NonIncreasing(sorted, key) && k <= |sorted|
    requires m in sorted[..k] && n in sorted && n !in sorted[..k]
    ensures key(n) <= key(m)
  {
    var i :| 0 <= i < k && sorted[..k][i] == m;
    var j :| 0 <= j < |sorted| && sorted[j] == n;
    assert sorted[i] == m;
  }

  /** Python's `<` on str: code-point lexicographic order. */
  predicate StrLess(a: string, b: string) {
    |b| > 0 && (|a| == 0 || a[0] < b[0] || (a[0] == b[0] && StrLess(a[1..], b[1..])))
  }

  lemma {:induction false} StrLessIrreflexive(a: string)
    ensures !StrLess(a, a)
  {
    if |a| > 0 { StrLessIrreflexive(a[1..]); }
  }

  lemma {:induction false} StrLessTransitive(a: string, b: string, c: string)
    requires StrLess(a, b) && StrLess(b, c)
    ensures StrLess(a, c)
  {
    if |a| > 0 && a[0] == b[0] && b[0] == c[0] {
      StrLessTransitive(a[1..], b[1..], c[1..]);
    }
  }

  lemma {:induction false} StrLessTotal(a: string, b: string)
    requires a != b
    ensures StrLess(a, b) || StrLess(b, a)
  {
    if |a| > 0 && |b| > 0 && a[0] == b[0] {
      assert a == [a[0]] + a[1..] && b == [b[0]] + b[1..];
      StrLessTotal(a[1..], b[1..]);
    }
  }

  /** Strictly increasing: sorted and without duplicates. */
  ghost predicate StrictlySorted(s: seq<string>) {
    forall i, j :: 0 <= i < j < |s| ==> StrLess(s[i], s[j])
  }

  /** Inserts x into a strictly sorted list unless it is already there. */
  function InsertUnique(x: string, t: seq<string>): (r: seq<string>)
    requires StrictlySorted(t)
    ensures StrictlySorted(r)
    ensures forall z :: z in r <==> z in t || z == x
    ensures r != [] && (r[0] == x || (t != [] && r[0] == t[0]))
  {
    if t == [] then [x]
    else if x == t[0] then t
    else if StrLess(x, t[0]) then
      InsertFront(x, t)
    else
      StrLessTotal(x, t[0]);
      var rest := InsertUnique(x, t[1..]);
      assert forall z :: z in rest ==> StrLess(t[0], z) by {
        forall z | z in rest ensures StrLess(t[0], z) {
          if z != x {
            var j :| 0 <= j < |t[1..]| && t[1..][j] == z;
            assert t[j + 1] == z;
          }
        }
      }
      [t[0]] + rest
  }

  function InsertFront(x: string, t: seq<string>): (r: seq<string>)
    requires StrictlySorted(t) && t != [] && StrLess(x, t[0])
    ensures r == [x] + t && StrictlySorted(r)
  {
    assert forall j :: 0 < j < |t| ==> StrLess(x, t[j]) by {
      forall j | 0 < j < |t| ensures StrLess(x, t[j]) {
        StrLessTransitive(x, t[0], t[j]);
      }
    }
    [x] + t
  }

  /** `sorted(set(xs))` for strings: each distinct value once, in increasing
      order. */
  function SortedDistinct(xs: seq<string>): (r: seq<string>)
    ensures StrictlySorted(r)
    ensures forall z :: z in r <==> z in xs
  {
    if xs == [] then []
    else
      var rest := SortedDistinct(xs[1..]);
      var r := InsertUnique(xs[0], rest);
      assert forall z :: z in xs <==> z == xs[0] || z in xs[1..];
      assert forall z :: z in r <==> z == xs[0] || z in rest;
      r
  }
}
