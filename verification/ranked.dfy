/**
 A run of `if (condition) list.push(item)` statements in a fixed order: the
 statement at position `n` contributes its item when its condition holds.
 Giving each item kind its position as a rank states the two things the
 caller relies on: the items come in the fixed order, and an item is present
 exactly when its condition holds.
 */
module Ranked {

  /** The items at positions `n` to `size - 1` whose condition holds, in position order. */
  function Select<I, T>(inp: I, applies: (I, nat) -> bool, item: (I, nat) -> T, n: nat, size: nat): seq<T>
    decreases size - n
  {
    if n >= size then []
    else (if applies(inp, n) then [item(inp, n)] else []) + Select(inp, applies, item, n + 1, size)
  }

  /** Some element of `s` has rank `r`. */
  predicate HasRank<T>(s: seq<T>, rank: T -> nat, r: nat) {
    exists i :: 0 <= i < |s| && rank(s[i]) == r
  }

  lemma {:induction false} SelectListed<I, T>(inp: I, applies: (I, nat) -> bool, item: (I, nat) -> T, rank: T -> nat, n: nat, size: nat)
    requires forall m: nat :: m < size ==> rank(item(inp, m)) == m
    ensures forall i :: 0 <= i < |Select(inp, applies, item, n, size)| ==>
      var x := Select(inp, applies, item, n, size)[i];
      n <= rank(x) < size && x == item(inp, rank(x)) && applies(inp, rank(x))
    decreases size - n
  {
    if n < size {
      SelectListed(inp, applies, item, rank, n + 1, size);
      var head := if applies(inp, n) then [item(inp, n)] else [];
      var rest := Select(inp, applies, item, n + 1, size);
      assert Select(inp, applies, item, n, size) == head + rest;
      assert forall i :: |head| <= i < |head + rest| ==> (head + rest)[i] == rest[i - |head|];
    }
  }

  lemma {:induction false} SelectOrdered<I, T>(inp: I, applies: (I, nat) -> bool, item: (I, nat) -> T, rank: T -> nat, n: nat, size: nat)
    requires forall m: nat :: m < size ==> rank(item(inp, m)) == m
    ensures forall i, j :: 0 <= i < j < |Select(inp, applies, item, n, size)| ==>
      rank(Select(inp, applies, item, n, size)[i]) < rank(Select(inp, applies, item, n, size)[j])
    decreases size - n
  {
    if n < size {
      SelectOrdered(inp, applies, item, rank, n + 1, size);
      SelectListed(inp, applies, item, rank, n + 1, size);
      var head := if applies(inp, n) then [item(inp, n)] else [];
      var rest := Select(inp, applies, item, n + 1, size);
      assert Select(inp, applies, item, n, size) == head + rest;
      assert forall i :: |head| <= i < |head + rest| ==> (head + rest)[i] == rest[i - |head|];
    }
  }

  lemma {:induction false} SelectComplete<I, T>(inp: I, applies: (I, nat) -> bool, item: (I, nat) -> T, rank: T -> nat, n: nat, size: nat)
    requires forall m: nat :: m < size ==> rank(item(inp, m)) == m
    ensures forall m :: n <= m < size && applies(inp, m) ==> HasRank(Select(inp, applies, item, n, size), rank, m)
    decreases size - n
  {
    if n < size {
      SelectComplete(inp, applies, item, rank, n + 1, size);
      var head := if applies(inp, n) then [item(inp, n)] else [];
      var rest := Select(inp, applies, item, n + 1, size);
      var s := head + rest;
      assert Select(inp, applies, item, n, size) == s;
      forall m | n <= m < size && applies(inp, m)
        ensures HasRank(s, rank, m)
      {
        if m == n {
          assert s[0] == item(inp, n);
        } else {
          var i :| 0 <= i < |rest| && rank(rest[i]) == m;
          assert s[|head| + i] == rest[i];
        }
      }
    }
  }

  /**
   The items come in position order, each is the item of its position, and
   the item of a position is present exactly when its condition holds.
   */
  lemma SelectSpec<I, T>(inp: I, applies: (I, nat) -> bool, item: (I, nat) -> T, rank: T -> nat, size: nat)
    requires forall m: nat :: m < size ==> rank(item(inp, m)) == m
    ensures forall i, j :: 0 <= i < j < |Select(inp, applies, item, 0, size)| ==>
      rank(Select(inp, applies, item, 0, size)[i]) < rank(Select(inp, applies, item, 0, size)[j])
    ensures forall i :: 0 <= i < |Select(inp, applies, item, 0, size)| ==>
      var x := Select(inp, applies, item, 0, size)[i];
      rank(x) < size && x == item(inp, rank(x))
    ensures forall m: nat :: m < size ==> (HasRank(Select(inp, applies, item, 0, size), rank, m) <==> applies(inp, m))
  {
    SelectListed(inp, applies, item, rank, 0, size);
    SelectOrdered(inp, applies, item, rank, 0, size);
    SelectComplete(inp, applies, item, rank, 0, size);
  }
}
