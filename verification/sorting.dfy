/**
 `Array.prototype.sort` with a numeric comparator `(a, b) => key(a) - key(b)`.
 Since ECMAScript 2019 the sort is stable: elements with equal keys keep their
 relative order. The model is an insertion sort whose contract states all three
 things a caller may rely on: the result is ordered by the key, it is a
 permutation of the input, and each class of equal keys is the input's class.
 */
module Sorting {
  import opened Common

  /** Ascending by `key`. */
  ghost predicate SortedBy<T>(s: seq<T>, key: T -> real) {
    forall i, j :: 0 <= i < j < |s| ==> key(s[i]) <= key(s[j])
  }

  /** The elements whose key is `k`, in order. */
  function KeyClass<T>(s: seq<T>, key: T -> real, k: real): seq<T> {
    if |s| == 0 then [] else (if key(s[0]) == k then [s[0]] else []) + KeyClass(s[1..], key, k)
  }

  lemma KeyClassCons<T>(h: T, t: seq<T>, key: T -> real, k: real)
    ensures KeyClass([h] + t, key, k) == (if key(h) == k then [h] else []) + KeyClass(t, key, k)
  {
    assert ([h] + t)[1..] == t;
  }

  lemma {:induction false} KeyClassConcat<T>(a: seq<T>, b: seq<T>, key: T -> real, k: real)
    ensures KeyClass(a + b, key, k) == KeyClass(a, key, k) + KeyClass(b, key, k)
  {
    if |a| == 0 {
      assert a + b == b;
    } else {
      KeyClassConcat(a[1..], b, key, k);
      assert a + b == [a[0]] + (a[1..] + b);
      assert a == [a[0]] + a[1..];
      KeyClassCons(a[0], a[1..] + b, key, k);
      KeyClassCons(a[0], a[1..], key, k);
    }
  }

  /** Place `x` in front of the first element whose key is not smaller. */
  function Insert<T>(x: T, u: seq<T>, key: T -> real): seq<T> {
    if |u| == 0 || key(x) <= key(u[0]) then [x] + u
    else [u[0]] + Insert(x, u[1..], key)
  }

  lemma {:induction false} InsertPermutes<T>(x: T, u: seq<T>, key: T -> real)
    ensures multiset(Insert(x, u, key)) == multiset{x} + multiset(u)
  {
    if |u| > 0 && key(x) > key(u[0]) {
      InsertPermutes(x, u[1..], key);
      assert u == [u[0]] + u[1..];
    }
  }

  lemma {:induction false} InsertSorted<T>(x: T, u: seq<T>, key: T -> real)
    requires SortedBy(u, key)
    ensures SortedBy(Insert(x, u, key), key)
    ensures key(Insert(x, u, key)[0]) == key(x) || (|u| > 0 && key(Insert(x, u, key)[0]) == key(u[0]))
  {
    if |u| > 0 && key(x) > key(u[0]) {
      var t := Insert(x, u[1..], key);
      InsertSorted(x, u[1..], key);
      InsertPermutes(x, u[1..], key);
      assert |t| == |u[1..]| + 1 by {
        assert |multiset(t)| == |multiset{x} + multiset(u[1..])|;
      }
      forall j | 0 <= j < |t|
        ensures key(u[0]) <= key(t[j])
      {
        if j > 0 {
          assert key(t[0]) <= key(t[j]);
        }
      }
    }
  }

  /** Inserting never moves `x` past an element with the same key. */
  lemma {:induction false} InsertKeyClass<T>(x: T, u: seq<T>, key: T -> real, k: real)
    ensures KeyClass(Insert(x, u, key), key, k) == KeyClass([x] + u, key, k)
  {
    if |u| > 0 && key(x) > key(u[0]) {
      var t := Insert(x, u[1..], key);
      InsertKeyClass(x, u[1..], key, k);
      assert u == [u[0]] + u[1..];
      KeyClassCons(u[0], t, key, k);
      KeyClassCons(x, u[1..], key, k);
      KeyClassCons(x, u, key, k);
      KeyClassCons(u[0], u[1..], key, k);
    }
  }

  /** The stable sort. */
  function StableSortBy<T>(s: seq<T>, key: T -> real): (r: seq<T>)
    ensures multiset(r) == multiset(s)
    ensures |r| == |s|
    ensures SortedBy(r, key)
    ensures forall k :: KeyClass(r, key, k) == KeyClass(s, key, k)
  {
    if |s| == 0 then []
    else
      var t := StableSortBy(s[1..], key);
      var r := Insert(s[0], t, key);
      assert s == [s[0]] + s[1..];
      InsertPermutes(s[0], t, key);
      InsertSorted(s[0], t, key);
      assert |r| == |multiset(r)|;
      forall k
        ensures KeyClass(r, key, k) == KeyClass(s, key, k)
      {
        InsertKeyClass(s[0], t, key, k);
        KeyClassCons(s[0], t, key, k);
        KeyClassCons(s[0], s[1..], key, k);
      }
      r
  }

  /** Inserting commutes with a map that keeps every element's key. */
  lemma {:induction false} InsertMap<T, U>(x: T, u: seq<T>, key: T -> real, f: T -> U, fkey: U -> real)
    requires forall y :: fkey(f(y)) == key(y)
    ensures Insert(f(x), Map(u, f), fkey) == Map(Insert(x, u, key), f)
  {
    MapCons(x, u, f);
    if |u| > 0 && key(x) > key(u[0]) {
      InsertMap(x, u[1..], key, f, fkey);
      assert Map(u, f)[1..] == Map(u[1..], f);
      MapCons(u[0], Insert(x, u[1..], key), f);
    }
  }

  /** Sorting commutes with a map that keeps every element's key. */
  lemma {:induction false} SortMap<T, U>(s: seq<T>, key: T -> real, f: T -> U, fkey: U -> real)
    requires forall y :: fkey(f(y)) == key(y)
    ensures StableSortBy(Map(s, f), fkey) == Map(StableSortBy(s, key), f)
  {
    if |s| > 0 {
      assert Map(s, f)[1..] == Map(s[1..], f);
      SortMap(s[1..], key, f, fkey);
      InsertMap(s[0], StableSortBy(s[1..], key), key, f, fkey);
    }
  }

  /** The elements with a given key, after sorting a concatenation, are those of each part in turn. */
  lemma {:induction false} KeyClassOfSortedConcat<T>(a: seq<T>, b: seq<T>, key: T -> real, k: real)
    ensures KeyClass(StableSortBy(a + b, key), key, k) == KeyClass(a, key, k) + KeyClass(b, key, k)
  {
    KeyClassConcat(a, b, key, k);
  }

  /** Sorting keeps exactly the elements of the input, so membership is unchanged. */
  lemma SortedMembers<T>(s: seq<T>, key: T -> real, x: T)
    ensures x in StableSortBy(s, key) <==> x in s
  {
    var r := StableSortBy(s, key);
    assert x in r <==> x in multiset(r);
    assert x in s <==> x in multiset(s);
  }

  /** A prefix of a sorted sequence is sorted. */
  lemma SortedPrefix<T>(s: seq<T>, key: T -> real, n: nat)
    requires SortedBy(s, key) && n <= |s|
    ensures SortedBy(s[..n], key)
  {
  }

  // ------------------------------------------------------------------
  // Stability stated on positions
  // ------------------------------------------------------------------

  /** Two elements of one key class appear in that class in the order they appear in `s`. */
  lemma {:induction false} KeyClassPositions<T>(s: seq<T>, key: T -> real, i: nat, j: nat)
      returns (a: nat, b: nat)
    requires i < j < |s| && key(s[i]) == key(s[j])
    ensures a < b < |KeyClass(s, key, key(s[i]))|
    ensures KeyClass(s, key, key(s[i]))[a] == s[i] && KeyClass(s, key, key(s[i]))[b] == s[j]
  {
    var c := key(s[i]);
    assert s[j] == s[1..][j - 1];
    if i == 0 {
      var b' := KeyClassPosition(s[1..], key, j - 1);
      a, b := 0, b' + 1;
    } else {
      assert s[i] == s[1..][i - 1];
      var a', b' := KeyClassPositions(s[1..], key, i - 1, j - 1);
      var o := if key(s[0]) == c then 1 else 0;
      a, b := a' + o, b' + o;
    }
  }

  lemma {:induction false} KeyClassPosition<T>(s: seq<T>, key: T -> real, j: nat) returns (b: nat)
    requires j < |s|
    ensures b < |KeyClass(s, key, key(s[j]))| && KeyClass(s, key, key(s[j]))[b] == s[j]
  {
    var c := key(s[j]);
    if j == 0 {
      b := 0;
    } else {
      assert s[j] == s[1..][j - 1];
      var b' := KeyClassPosition(s[1..], key, j - 1);
      b := b' + (if key(s[0]) == c then 1 else 0);
    }
  }

  /** Two positions of a key class come from positions of `s` in the same order. */
  lemma {:induction false} KeyClassSources<T>(s: seq<T>, key: T -> real, c: real, a: nat, b: nat)
      returns (i: nat, j: nat)
    requires a < b < |KeyClass(s, key, c)|
    ensures i < j < |s| && s[i] == KeyClass(s, key, c)[a] && s[j] == KeyClass(s, key, c)[b]
  {
    if key(s[0]) == c {
      if a == 0 {
        var j' := KeyClassSource(s[1..], key, c, b - 1);
        i, j := 0, j' + 1;
      } else {
        var i', j' := KeyClassSources(s[1..], key, c, a - 1, b - 1);
        i, j := i' + 1, j' + 1;
      }
    } else {
      var i', j' := KeyClassSources(s[1..], key, c, a, b);
      i, j := i' + 1, j' + 1;
    }
  }

  lemma {:induction false} KeyClassSource<T>(s: seq<T>, key: T -> real, c: real, b: nat) returns (j: nat)
    requires b < |KeyClass(s, key, c)|
    ensures j < |s| && s[j] == KeyClass(s, key, c)[b]
  {
    if key(s[0]) == c && b == 0 {
      j := 0;
    } else {
      var j' := KeyClassSource(s[1..], key, c, if key(s[0]) == c then b - 1 else b);
      j := j' + 1;
    }
  }

  /** Stability: two elements with equal keys that the sort puts in order come from the input in that order. */
  lemma StableOrder<T>(s: seq<T>, key: T -> real, i: nat, j: nat) returns (i': nat, j': nat)
    requires i < j < |StableSortBy(s, key)|
    requires key(StableSortBy(s, key)[i]) == key(StableSortBy(s, key)[j])
    ensures i' < j' < |s|
    ensures s[i'] == StableSortBy(s, key)[i] && s[j'] == StableSortBy(s, key)[j]
  {
    var r := StableSortBy(s, key);
    var c := key(r[i]);
    var a, b := KeyClassPositions(r, key, i, j);
    assert KeyClass(r, key, c) == KeyClass(s, key, c);
    i', j' := KeyClassSources(s, key, c, a, b);
  }
}
