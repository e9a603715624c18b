/** Stable ascending order by an integer key, as the library sorts of the source provide it. */
module Sorting {
  ghost predicate Ascending<T>(s: seq<T>, key: T -> int) {
    forall i, j :: 0 <= i < j < |s| ==> key(s[i]) <= key(s[j])
  }

  function Insert<T>(x: T, s: seq<T>, key: T -> int): (r: seq<T>) {
    if s == [] || key(x) <= key(s[0]) then [x] + s else [s[0]] + Insert(x, s[1..], key)
  }

  function Sort<T>(s: seq<T>, key: T -> int): (r: seq<T>) {
    if s == [] then [] else Insert(s[0], Sort(s[1..], key), key)
  }

  function Identity(x: int): int { x }

  /** The elements with one key, in their order. */
  ghost function WithKey<T>(s: seq<T>, key: T -> int, k: int): seq<T> {
    if s == [] then [] else (if key(s[0]) == k then [s[0]] else []) + WithKey(s[1..], key, k)
  }

  lemma {:induction false} InsertElements<T>(x: T, s: seq<T>, key: T -> int)
    ensures multiset(Insert(x, s, key)) == multiset(s) + multiset{x}
  {
    if s != [] && key(x) > key(s[0]) {
      InsertElements(x, s[1..], key);
      assert s == [s[0]] + s[1..];
    }
  }

  lemma {:induction false} InsertAscending<T>(x: T, s: seq<T>, key: T -> int)
    requires Ascending(s, key)
    ensures Ascending(Insert(x, s, key), key)
  {
    if s != [] && key(x) > key(s[0]) {
      var r := Insert(x, s[1..], key);
      InsertAscending(x, s[1..], key);
      InsertElements(x, s[1..], key);
      forall i | 0 <= i < |r|
        ensures key(s[0]) <= key(r[i])
      {
        assert r[i] in multiset(r);
        assert r[i] in s[1..] || r[i] == x;
      }
    }
  }

  lemma {:induction false} SortSorts<T>(s: seq<T>, key: T -> int)
    ensures Ascending(Sort(s, key), key) && multiset(Sort(s, key)) == multiset(s)
    ensures forall x :: x in Sort(s, key) <==> x in s
  {
    if s != [] {
      SortSorts(s[1..], key);
      InsertAscending(s[0], Sort(s[1..], key), key);
      InsertElements(s[0], Sort(s[1..], key), key);
      assert s == [s[0]] + s[1..];
    }
    SameElements(s, Sort(s, key));
  }

  lemma SameElements<T>(s: seq<T>, r: seq<T>)
    requires multiset(s) == multiset(r)
    ensures |s| == |r| && forall x :: x in s <==> x in r
  {
    assert |multiset(s)| == |s| && |multiset(r)| == |r|;
    forall x
      ensures x in s <==> x in r
    {
      assert x in s <==> x in multiset(s);
      assert x in r <==> x in multiset(r);
    }
  }

  ghost predicate Unique<T>(s: seq<T>) {
    forall i, j :: 0 <= i < j < |s| ==> s[i] != s[j]
  }

  lemma {:induction false} UniqueCount<T>(s: seq<T>)
    ensures Unique(s) <==> forall x :: x in s ==> multiset(s)[x] == 1
  {
    if s != [] {
      var n := |s| - 1;
      UniqueCount(s[..n]);
      assert s == s[..n] + [s[n]];
      if Unique(s) {
        assert s[n] !in s[..n];
        assert s[n] !in multiset(s[..n]);
      } else if Unique(s[..n]) {
        var i :| 0 <= i < n && s[i] == s[n];
        assert s[n] in s[..n] && s[n] in multiset(s[..n]);
        assert multiset(s)[s[n]] > 1;
      } else {
        var x :| x in s[..n] && multiset(s[..n])[x] != 1;
        assert x in multiset(s[..n]) && x in s;
        assert multiset(s)[x] > 1;
      }
    }
  }

  lemma PermutedUnique<T>(s: seq<T>, r: seq<T>)
    requires multiset(s) == multiset(r) && Unique(s)
    ensures Unique(r)
  {
    UniqueCount(s);
    UniqueCount(r);
    SameElements(s, r);
  }

  // ---------------------------------------------------------------- stability

  lemma Associates<T>(a: seq<T>, b: seq<T>, c: seq<T>)
    ensures a + (b + c) == a + b + c
  {
  }

  lemma {:induction false} WithKeyAppend<T>(a: seq<T>, b: seq<T>, key: T -> int, k: int)
    ensures WithKey(a + b, key, k) == WithKey(a, key, k) + WithKey(b, key, k)
  {
    if a == [] {
      assert a + b == b;
    } else {
      WithKeyAppend(a[1..], b, key, k);
      assert (a + b)[1..] == a[1..] + b && (a + b)[0] == a[0];
      Associates(if key(a[0]) == k then [a[0]] else [], WithKey(a[1..], key, k), WithKey(b, key, k));
    }
  }

  lemma {:induction false} InsertStable<T>(x: T, s: seq<T>, key: T -> int, k: int)
    requires Ascending(s, key)
    ensures WithKey(Insert(x, s, key), key, k) == (if key(x) == k then [x] else []) + WithKey(s, key, k)
  {
    var r := Insert(x, s, key);
    if s != [] && key(x) > key(s[0]) {
      var rest := WithKey(s[1..], key, k);
      InsertStable(x, s[1..], key, k);
      assert r[0] == s[0] && r[1..] == Insert(x, s[1..], key);
      if key(x) == k {
        assert WithKey(s, key, k) == rest;
      }
    } else {
      assert r[0] == x && r[1..] == s;
    }
  }

  /** Elements with the same key keep their order. */
  lemma {:induction false} SortStable<T>(s: seq<T>, key: T -> int, k: int)
    ensures WithKey(Sort(s, key), key, k) == WithKey(s, key, k)
  {
    if s != [] {
      SortStable(s[1..], key, k);
      SortSorts(s[1..], key);
      InsertStable(s[0], Sort(s[1..], key), key, k);
    }
  }

  lemma {:induction false} NoneWithKey<T>(s: seq<T>, key: T -> int, k: int)
    ensures WithKey(s, key, k) == [] <==> forall i :: 0 <= i < |s| ==> key(s[i]) != k
  {
    if s != [] {
      NoneWithKey(s[1..], key, k);
      assert forall i :: 0 < i < |s| ==> s[i] == s[1..][i - 1];
    }
  }

  /** A stable ascending order of given elements is unique. */
  lemma {:induction false} StableUnique<T>(a: seq<T>, b: seq<T>, key: T -> int)
    requires Ascending(a, key) && Ascending(b, key) && forall k :: WithKey(a, key, k) == WithKey(b, key, k)
    ensures a == b
  {
    if b != [] {
      NoneWithKey(b, key, key(b[0]));
    }
    if a != [] {
      var k := key(a[0]);
      NoneWithKey(a, key, k);
      NoneWithKey(b, key, k);
      assert b != [];
      NoneWithKey(a, key, key(b[0]));
      NoneWithKey(b, key, key(b[0]));
      assert WithKey(a, key, key(b[0])) == WithKey(b, key, key(b[0]));
      assert key(b[0]) == k;
      assert WithKey(a, key, k)[0] == a[0] && WithKey(b, key, k)[0] == b[0];
      forall j
        ensures WithKey(a[1..], key, j) == WithKey(b[1..], key, j)
      {
        assert WithKey(a, key, j) == WithKey(b, key, j);
        if j == k {
          assert WithKey(a[1..], key, j) == WithKey(a, key, j)[1..];
          assert WithKey(b[1..], key, j) == WithKey(b, key, j)[1..];
        } else {
          assert WithKey(a, key, j) == WithKey(a[1..], key, j);
          assert WithKey(b, key, j) == WithKey(b[1..], key, j);
        }
      }
      StableUnique(a[1..], b[1..], key);
    }
  }
}
