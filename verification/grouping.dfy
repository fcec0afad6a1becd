/**
 Grouping rows by a key in a JavaScript `Map` (or plain object) filled by one
 pass over the rows: a key's entry is created when the key is first seen and
 each later row with that key is appended to it. Iterating the map afterwards
 visits the keys in first-seen order.
 */
module Grouping {
  import opened Common

  datatype Group<K, T> = Group(key: K, members: seq<T>)

  /** The rows whose key is `k`, in order. */
  function Members<T, K(==)>(s: seq<T>, key: T -> K, k: K): seq<T> {
    if |s| == 0 then []
    else Members(s[..|s| - 1], key, k) + (if key(s[|s| - 1]) == k then [s[|s| - 1]] else [])
  }

  /** Index of the first row whose key is `k`, or -1. */
  function FirstIndex<T, K(==)>(s: seq<T>, key: T -> K, k: K): (r: int)
    ensures -1 <= r < |s|
  {
    if |s| == 0 then -1
    else
      var f := FirstIndex(s[..|s| - 1], key, k);
      if f >= 0 then f else if key(s[|s| - 1]) == k then |s| - 1 else -1
  }

  /** Index of the group with key `k`, or -1. */
  function KeyIndex<K(==), T>(gs: seq<Group<K, T>>, k: K): (r: int)
    ensures -1 <= r < |gs|
    ensures r >= 0 ==> gs[r].key == k
  {
    if |gs| == 0 then -1
    else if gs[0].key == k then 0
    else
      var i := KeyIndex(gs[1..], k);
      if i < 0 then -1 else i + 1
  }

  lemma {:induction false} KeyIndexAbsent<K, T>(gs: seq<Group<K, T>>, k: K, i: nat)
    requires KeyIndex(gs, k) < 0 && i < |gs|
    ensures gs[i].key != k
  {
    if i > 0 {
      assert gs[0].key != k && KeyIndex(gs[1..], k) < 0;
      KeyIndexAbsent(gs[1..], k, i - 1);
      assert gs[1..][i - 1] == gs[i];
    }
  }

  lemma {:induction false} KeyIndexPresent<K, T>(gs: seq<Group<K, T>>, k: K, i: nat)
    requires i < |gs| && gs[i].key == k
    ensures KeyIndex(gs, k) >= 0
  {
    if i > 0 && gs[0].key != k {
      assert gs[1..][i - 1] == gs[i];
      KeyIndexPresent(gs[1..], k, i - 1);
    }
  }

  /** One step of the accumulation loop: append `x` to its key's group, creating the group if the key is new. */
  function Add<T, K(==)>(gs: seq<Group<K, T>>, x: T, key: T -> K): seq<Group<K, T>> {
    var i := KeyIndex(gs, key(x));
    if i < 0 then gs + [Group(key(x), [x])]
    else gs[i := Group(gs[i].key, gs[i].members + [x])]
  }

  /** The accumulation loop over all rows. */
  function Accumulate<T, K(==)>(s: seq<T>, key: T -> K): seq<Group<K, T>> {
    if |s| == 0 then [] else Add(Accumulate(s[..|s| - 1], key), s[|s| - 1], key)
  }

  lemma AccumulateSnoc<T, K>(p: seq<T>, x: T, key: T -> K)
    ensures Accumulate(p + [x], key) == Add(Accumulate(p, key), x, key)
  {
    assert (p + [x])[..|p|] == p;
  }

  // ------------------------------------------------------------------
  // What the loop has built after reading rows s
  // ------------------------------------------------------------------

  ghost predicate DistinctKeys<K, T>(gs: seq<Group<K, T>>) {
    forall i, j :: 0 <= i < j < |gs| ==> gs[i].key != gs[j].key
  }

  /** Each group holds exactly the rows with its key, in their original order. */
  ghost predicate MembersMatch<T, K>(s: seq<T>, key: T -> K, gs: seq<Group<K, T>>) {
    forall i :: 0 <= i < |gs| ==> gs[i].members == Members(s, key, gs[i].key)
  }

  ghost predicate NoEmptyGroup<K, T>(gs: seq<Group<K, T>>) {
    forall i :: 0 <= i < |gs| ==> |gs[i].members| > 0
  }

  /** Every row's key has a group. */
  ghost predicate Covers<T, K>(s: seq<T>, key: T -> K, gs: seq<Group<K, T>>) {
    forall j :: 0 <= j < |s| ==> KeyIndex(gs, key(s[j])) >= 0
  }

  /** The groups appear in the order in which their keys first occur among the rows. */
  ghost predicate FirstSeenOrder<T, K>(s: seq<T>, key: T -> K, gs: seq<Group<K, T>>) {
    forall i, j :: 0 <= i < j < |gs| ==>
      0 <= FirstIndex(s, key, gs[i].key) < FirstIndex(s, key, gs[j].key)
  }

  ghost predicate GroupsOf<T, K>(s: seq<T>, key: T -> K, gs: seq<Group<K, T>>) {
    && DistinctKeys(gs)
    && MembersMatch(s, key, gs)
    && NoEmptyGroup(gs)
    && Covers(s, key, gs)
    && FirstSeenOrder(s, key, gs)
  }

  // ------------------------------------------------------------------
  // Facts about rows
  // ------------------------------------------------------------------

  lemma MembersSnoc<T, K>(p: seq<T>, x: T, key: T -> K, k: K)
    ensures Members(p + [x], key, k) == Members(p, key, k) + (if key(x) == k then [x] else [])
  {
    assert (p + [x])[..|p|] == p;
  }

  lemma MembersNone<T, K>(s: seq<T>, key: T -> K, k: K)
    requires forall i :: 0 <= i < |s| ==> key(s[i]) != k
    ensures Members(s, key, k) == []
  {
    if |s| > 0 {
      MembersNone(s[..|s| - 1], key, k);
    }
  }

  /** Every member of a key's class is a row with that key. */
  lemma MembersHaveKey<T, K>(s: seq<T>, key: T -> K, k: K)
    ensures forall i :: 0 <= i < |Members(s, key, k)| ==> key(Members(s, key, k)[i]) == k
    ensures multiset(Members(s, key, k)) <= multiset(s)
  {
    if |s| > 0 {
      MembersHaveKey(s[..|s| - 1], key, k);
      assert s == s[..|s| - 1] + [s[|s| - 1]];
    }
  }

  lemma FirstIndexSnoc<T, K>(p: seq<T>, x: T, key: T -> K, k: K)
    ensures FirstIndex(p + [x], key, k)
         == if FirstIndex(p, key, k) >= 0 then FirstIndex(p, key, k) else if key(x) == k then |p| else -1
  {
    assert (p + [x])[..|p|] == p;
  }

  lemma FirstIndexNone<T, K>(s: seq<T>, key: T -> K, k: K)
    requires forall i :: 0 <= i < |s| ==> key(s[i]) != k
    ensures FirstIndex(s, key, k) == -1
  {
    if |s| > 0 {
      FirstIndexNone(s[..|s| - 1], key, k);
    }
  }

  lemma FirstIndexOfMember<T, K>(s: seq<T>, key: T -> K, k: K)
    requires |Members(s, key, k)| > 0
    ensures FirstIndex(s, key, k) >= 0
  {
    var p := s[..|s| - 1];
    assert s == p + [s[|s| - 1]];
    FirstIndexSnoc(p, s[|s| - 1], key, k);
    if key(s[|s| - 1]) != k {
      FirstIndexOfMember(p, key, k);
    }
  }

  /** The first index, when there is one, is a row with that key. */
  lemma {:induction false} FirstIndexHasKey<T, K>(s: seq<T>, key: T -> K, k: K)
    requires FirstIndex(s, key, k) >= 0
    ensures key(s[FirstIndex(s, key, k)]) == k
  {
    var p := s[..|s| - 1];
    if FirstIndex(p, key, k) >= 0 {
      FirstIndexHasKey(p, key, k);
    }
  }

  // ------------------------------------------------------------------
  // One step preserves GroupsOf: a new key
  // ------------------------------------------------------------------

  lemma NewKeyAbsent<T, K>(p: seq<T>, x: T, key: T -> K, g: seq<Group<K, T>>)
    requires Covers(p, key, g) && KeyIndex(g, key(x)) < 0
    ensures Members(p, key, key(x)) == []
    ensures FirstIndex(p, key, key(x)) == -1
  {
    forall j | 0 <= j < |p|
      ensures key(p[j]) != key(x)
    {
      var m := KeyIndex(g, key(p[j]));
      KeyIndexAbsent(g, key(x), m);
    }
    MembersNone(p, key, key(x));
    FirstIndexNone(p, key, key(x));
  }

  lemma NewKeyDistinct<K, T>(g: seq<Group<K, T>>, k: K, m: seq<T>)
    requires DistinctKeys(g) && KeyIndex(g, k) < 0
    ensures DistinctKeys(g + [Group(k, m)])
    ensures forall i :: 0 <= i < |g| ==> g[i].key != k
  {
    forall i | 0 <= i < |g|
      ensures g[i].key != k
    {
      KeyIndexAbsent(g, k, i);
    }
  }

  lemma NewKeyMembers<T, K>(p: seq<T>, x: T, key: T -> K, g: seq<Group<K, T>>)
    requires MembersMatch(p, key, g) && Members(p, key, key(x)) == []
    requires forall i :: 0 <= i < |g| ==> g[i].key != key(x)
    ensures MembersMatch(p + [x], key, g + [Group(key(x), [x])])
  {
    var r := g + [Group(key(x), [x])];
    forall i | 0 <= i < |r|
      ensures r[i].members == Members(p + [x], key, r[i].key)
    {
      MembersSnoc(p, x, key, r[i].key);
    }
  }

  lemma NewKeyCoverage<T, K>(p: seq<T>, x: T, key: T -> K, g: seq<Group<K, T>>)
    requires Covers(p, key, g)
    ensures Covers(p + [x], key, g + [Group(key(x), [x])])
  {
    var s := p + [x];
    var r := g + [Group(key(x), [x])];
    forall j | 0 <= j < |s|
      ensures KeyIndex(r, key(s[j])) >= 0
    {
      if j < |p| {
        assert s[j] == p[j];
        var m := KeyIndex(g, key(p[j]));
        KeyIndexPresent(r, key(s[j]), m);
      } else {
        KeyIndexPresent(r, key(s[j]), |g|);
      }
    }
  }

  lemma NewKeyOrder<T, K>(p: seq<T>, x: T, key: T -> K, g: seq<Group<K, T>>)
    requires MembersMatch(p, key, g) && NoEmptyGroup(g) && FirstSeenOrder(p, key, g)
    requires FirstIndex(p, key, key(x)) == -1
    ensures FirstSeenOrder(p + [x], key, g + [Group(key(x), [x])])
  {
    var s := p + [x];
    var r := g + [Group(key(x), [x])];
    forall i | 0 <= i < |g|
      ensures 0 <= FirstIndex(s, key, r[i].key) == FirstIndex(p, key, g[i].key) < |p|
    {
      FirstIndexSnoc(p, x, key, r[i].key);
      FirstIndexOfMember(p, key, g[i].key);
    }
    FirstIndexSnoc(p, x, key, key(x));
  }

  lemma AddNewKey<T, K>(p: seq<T>, x: T, key: T -> K, g: seq<Group<K, T>>)
    requires GroupsOf(p, key, g) && KeyIndex(g, key(x)) < 0
    ensures GroupsOf(p + [x], key, Add(g, x, key))
  {
    var r := g + [Group(key(x), [x])];
    assert Add(g, x, key) == r;
    NewKeyAbsent(p, x, key, g);
    NewKeyDistinct(g, key(x), [x]);
    NewKeyMembers(p, x, key, g);
    NewKeyCoverage(p, x, key, g);
    NewKeyOrder(p, x, key, g);
  }

  // ------------------------------------------------------------------
  // One step preserves GroupsOf: a known key
  // ------------------------------------------------------------------

  lemma KnownKeyMembers<T, K>(p: seq<T>, x: T, key: T -> K, g: seq<Group<K, T>>, ix: nat)
    requires DistinctKeys(g) && MembersMatch(p, key, g)
    requires ix < |g| && g[ix].key == key(x)
    ensures MembersMatch(p + [x], key, g[ix := Group(g[ix].key, g[ix].members + [x])])
  {
    var r := g[ix := Group(g[ix].key, g[ix].members + [x])];
    forall i | 0 <= i < |r|
      ensures r[i].members == Members(p + [x], key, r[i].key)
    {
      MembersSnoc(p, x, key, r[i].key);
    }
  }

  lemma KnownKeyCoverage<T, K>(p: seq<T>, x: T, key: T -> K, g: seq<Group<K, T>>, ix: nat)
    requires Covers(p, key, g)
    requires ix < |g| && g[ix].key == key(x)
    ensures Covers(p + [x], key, g[ix := Group(g[ix].key, g[ix].members + [x])])
  {
    var s := p + [x];
    var r := g[ix := Group(g[ix].key, g[ix].members + [x])];
    forall j | 0 <= j < |s|
      ensures KeyIndex(r, key(s[j])) >= 0
    {
      if j < |p| {
        assert s[j] == p[j];
        var m := KeyIndex(g, key(p[j]));
        KeyIndexPresent(r, key(s[j]), m);
      } else {
        KeyIndexPresent(r, key(s[j]), ix);
      }
    }
  }

  lemma KnownKeyOrder<T, K>(p: seq<T>, x: T, key: T -> K, g: seq<Group<K, T>>, ix: nat)
    requires MembersMatch(p, key, g) && NoEmptyGroup(g) && FirstSeenOrder(p, key, g)
    requires ix < |g|
    ensures FirstSeenOrder(p + [x], key, g[ix := Group(g[ix].key, g[ix].members + [x])])
  {
    var r := g[ix := Group(g[ix].key, g[ix].members + [x])];
    forall i | 0 <= i < |r|
      ensures FirstIndex(p + [x], key, r[i].key) == FirstIndex(p, key, g[i].key) >= 0
    {
      FirstIndexSnoc(p, x, key, r[i].key);
      FirstIndexOfMember(p, key, g[i].key);
    }
  }

  lemma AddKnownKey<T, K>(p: seq<T>, x: T, key: T -> K, g: seq<Group<K, T>>)
    requires GroupsOf(p, key, g) && KeyIndex(g, key(x)) >= 0
    ensures GroupsOf(p + [x], key, Add(g, x, key))
  {
    var ix := KeyIndex(g, key(x));
    var r := g[ix := Group(g[ix].key, g[ix].members + [x])];
    assert Add(g, x, key) == r;
    KnownKeyMembers(p, x, key, g, ix);
    KnownKeyCoverage(p, x, key, g, ix);
    KnownKeyOrder(p, x, key, g, ix);
  }

  lemma {:induction false} AccumulateGroups<T, K>(s: seq<T>, key: T -> K)
    ensures GroupsOf(s, key, Accumulate(s, key))
  {
    if |s| > 0 {
      var p := s[..|s| - 1];
      var x := s[|s| - 1];
      assert s == p + [x];
      AccumulateGroups(p, key);
      AccumulateSnoc(p, x, key);
      if KeyIndex(Accumulate(p, key), key(x)) < 0 {
        AddNewKey(p, x, key, Accumulate(p, key));
      } else {
        AddKnownKey(p, x, key, Accumulate(p, key));
      }
    }
  }

  /**
   The groups, in first-seen order of their keys: each key occurs once, each
   group holds exactly the rows with its key in their original order, and
   every row's key has a group.
   */
  function GroupBy<T, K(==)>(s: seq<T>, key: T -> K): (r: seq<Group<K, T>>)
    ensures DistinctKeys(r)
    ensures MembersMatch(s, key, r)
    ensures NoEmptyGroup(r)
    ensures Covers(s, key, r)
    ensures FirstSeenOrder(s, key, r)
  {
    AccumulateGroups(s, key);
    Accumulate(s, key)
  }

  // ------------------------------------------------------------------
  // Totals
  // ------------------------------------------------------------------

  /** Sum of `f` over a sequence, left to right. */
  function SumBy<T>(s: seq<T>, f: T -> real): real {
    if |s| == 0 then 0.0 else SumBy(s[..|s| - 1], f) + f(s[|s| - 1])
  }

  lemma SumByConcat<T>(a: seq<T>, b: seq<T>, f: T -> real)
    ensures SumBy(a + b, f) == SumBy(a, f) + SumBy(b, f)
  {
    if |b| > 0 {
      assert (a + b)[..|a + b| - 1] == a + b[..|b| - 1];
      SumByConcat(a, b[..|b| - 1], f);
    } else {
      assert a + b == a;
    }
  }

  lemma SumByNonNegative<T>(s: seq<T>, f: T -> real)
    requires forall i :: 0 <= i < |s| ==> f(s[i]) >= 0.0
    ensures SumBy(s, f) >= 0.0
  {
    if |s| > 0 {
      SumByNonNegative(s[..|s| - 1], f);
    }
  }

  /** Sum of `f` over the members of all groups. */
  function GroupsTotal<K, T>(gs: seq<Group<K, T>>, f: T -> real): real {
    if |gs| == 0 then 0.0 else GroupsTotal(gs[..|gs| - 1], f) + SumBy(gs[|gs| - 1].members, f)
  }

  lemma {:induction false} GroupsTotalAppendMember<K, T>(gs: seq<Group<K, T>>, i: nat, x: T, f: T -> real)
    requires i < |gs|
    ensures GroupsTotal(gs[i := Group(gs[i].key, gs[i].members + [x])], f) == GroupsTotal(gs, f) + f(x)
  {
    var u := gs[i := Group(gs[i].key, gs[i].members + [x])];
    var n := |gs| - 1;
    assert (gs[i].members + [x])[..|gs[i].members|] == gs[i].members;
    if i == n {
      assert u[..n] == gs[..n];
    } else {
      GroupsTotalAppendMember(gs[..n], i, x, f);
      assert u[..n] == gs[..n][i := Group(gs[i].key, gs[i].members + [x])];
    }
  }

  lemma AddTotal<T, K>(gs: seq<Group<K, T>>, x: T, key: T -> K, f: T -> real)
    ensures GroupsTotal(Add(gs, x, key), f) == GroupsTotal(gs, f) + f(x)
  {
    var ix := KeyIndex(gs, key(x));
    if ix < 0 {
      var u := gs + [Group(key(x), [x])];
      assert u[..|gs|] == gs;
      assert SumBy([x], f) == f(x) by {
        assert [x][..0] == [];
      }
    } else {
      GroupsTotalAppendMember(gs, ix, x, f);
    }
  }

  lemma {:induction false} AccumulateTotal<T, K>(s: seq<T>, key: T -> K, f: T -> real)
    ensures GroupsTotal(Accumulate(s, key), f) == SumBy(s, f)
  {
    if |s| > 0 {
      AccumulateTotal(s[..|s| - 1], key, f);
      AddTotal(Accumulate(s[..|s| - 1], key), s[|s| - 1], key, f);
    }
  }

  /** Grouping loses and duplicates nothing: the per-group totals add up to the total over all rows. */
  lemma GroupByPreservesTotal<T, K>(s: seq<T>, key: T -> K, f: T -> real)
    ensures GroupsTotal(GroupBy(s, key), f) == SumBy(s, f)
  {
    AccumulateTotal(s, key, f);
  }

  /** Number of members over all groups. */
  function GroupsSize<K, T>(gs: seq<Group<K, T>>): nat {
    if |gs| == 0 then 0 else GroupsSize(gs[..|gs| - 1]) + |gs[|gs| - 1].members|
  }

  lemma {:induction false} GroupsSizeAppendMember<K, T>(gs: seq<Group<K, T>>, i: nat, x: T)
    requires i < |gs|
    ensures GroupsSize(gs[i := Group(gs[i].key, gs[i].members + [x])]) == GroupsSize(gs) + 1
  {
    var u := gs[i := Group(gs[i].key, gs[i].members + [x])];
    var n := |gs| - 1;
    if i == n {
      assert u[..n] == gs[..n];
    } else {
      GroupsSizeAppendMember(gs[..n], i, x);
      assert u[..n] == gs[..n][i := Group(gs[i].key, gs[i].members + [x])];
    }
  }

  lemma AddSize<T, K>(gs: seq<Group<K, T>>, x: T, key: T -> K)
    ensures GroupsSize(Add(gs, x, key)) == GroupsSize(gs) + 1
  {
    var ix := KeyIndex(gs, key(x));
    if ix < 0 {
      assert (gs + [Group(key(x), [x])])[..|gs|] == gs;
    } else {
      GroupsSizeAppendMember(gs, ix, x);
    }
  }

  lemma {:induction false} AccumulateSize<T, K>(s: seq<T>, key: T -> K)
    ensures GroupsSize(Accumulate(s, key)) == |s|
  {
    if |s| > 0 {
      AccumulateSize(s[..|s| - 1], key);
      AddSize(Accumulate(s[..|s| - 1], key), s[|s| - 1], key);
    }
  }

  /** Every row lands in exactly one group: the group sizes add up to the number of rows. */
  lemma GroupBySize<T, K>(s: seq<T>, key: T -> K)
    ensures GroupsSize(GroupBy(s, key)) == |s|
  {
    AccumulateSize(s, key);
  }

  // ------------------------------------------------------------------
  // A map from key to an accumulator, updated row by row
  // ------------------------------------------------------------------

  datatype Entry<K, A> = Entry(key: K, acc: A)

  /** Left fold: `step` applied to the rows in order, starting from `init`. */
  function Fold<T, A>(s: seq<T>, init: A, step: (A, T) -> A): A {
    if |s| == 0 then init else step(Fold(s[..|s| - 1], init, step), s[|s| - 1])
  }

  /** Index of the entry for `k`, or -1. */
  function EntryIndex<K(==), A>(es: seq<Entry<K, A>>, k: K): (r: int)
    ensures -1 <= r < |es|
  {
    if |es| == 0 then -1
    else if es[0].key == k then 0
    else
      var i := EntryIndex(es[1..], k);
      if i < 0 then -1 else i + 1
  }

  /** `m.get(k) || init` */
  function GetEntry<K(==), A>(es: seq<Entry<K, A>>, k: K, init: A): A {
    var i := EntryIndex(es, k);
    if i < 0 then init else es[i].acc
  }

  /** `m.set(k, a)`: a new key goes to the end, a known key keeps its place. */
  function SetEntry<K(==), A>(es: seq<Entry<K, A>>, k: K, a: A): seq<Entry<K, A>> {
    var i := EntryIndex(es, k);
    if i < 0 then es + [Entry(k, a)] else es[i := Entry(k, a)]
  }

  /** The loop `for (x of s) m.set(key(x), step(m.get(key(x)) || init, x))`. */
  function FoldByKey<T, K(==), A>(s: seq<T>, key: T -> K, init: A, step: (A, T) -> A): seq<Entry<K, A>> {
    if |s| == 0 then []
    else
      var es := FoldByKey(s[..|s| - 1], key, init, step);
      var x := s[|s| - 1];
      SetEntry(es, key(x), step(GetEntry(es, key(x), init), x))
  }

  /** One entry per group: its key and the fold of its members. */
  function FoldGroups<K, T, A>(gs: seq<Group<K, T>>, init: A, step: (A, T) -> A): (es: seq<Entry<K, A>>)
    ensures |es| == |gs|
    ensures forall i :: 0 <= i < |gs| ==> es[i] == Entry(gs[i].key, Fold(gs[i].members, init, step))
  {
    if |gs| == 0 then []
    else [Entry(gs[0].key, Fold(gs[0].members, init, step))] + FoldGroups(gs[1..], init, step)
  }

  lemma {:induction false} EntryIndexOfFold<K, T, A>(gs: seq<Group<K, T>>, init: A, step: (A, T) -> A, k: K)
    ensures EntryIndex(FoldGroups(gs, init, step), k) == KeyIndex(gs, k)
  {
    if |gs| > 0 && gs[0].key != k {
      var es := FoldGroups(gs, init, step);
      assert es[1..] == FoldGroups(gs[1..], init, step);
      EntryIndexOfFold(gs[1..], init, step, k);
    }
  }

  lemma FoldGroupsAdd<T, K, A>(gs: seq<Group<K, T>>, x: T, key: T -> K, init: A, step: (A, T) -> A)
    ensures FoldGroups(Add(gs, x, key), init, step)
         == var es := FoldGroups(gs, init, step);
            SetEntry(es, key(x), step(GetEntry(es, key(x), init), x))
  {
    var es := FoldGroups(gs, init, step);
    EntryIndexOfFold(gs, init, step, key(x));
    var i := KeyIndex(gs, key(x));
    if i < 0 {
      FoldGroupsNewKey(gs, key(x), x, init, step);
    } else {
      FoldGroupsKnownKey(gs, i, x, init, step);
    }
  }

  lemma FoldGroupsNewKey<K, T, A>(gs: seq<Group<K, T>>, k: K, x: T, init: A, step: (A, T) -> A)
    ensures FoldGroups(gs + [Group(k, [x])], init, step) == FoldGroups(gs, init, step) + [Entry(k, step(init, x))]
  {
    assert Fold([x], init, step) == step(init, x) by {
      assert [x][..0] == [];
    }
    var u := gs + [Group(k, [x])];
    assert forall i :: 0 <= i < |gs| ==> u[i] == gs[i];
  }

  lemma FoldGroupsKnownKey<K, T, A>(gs: seq<Group<K, T>>, i: nat, x: T, init: A, step: (A, T) -> A)
    requires i < |gs|
    ensures FoldGroups(gs[i := Group(gs[i].key, gs[i].members + [x])], init, step)
         == FoldGroups(gs, init, step)[i := Entry(gs[i].key, step(Fold(gs[i].members, init, step), x))]
  {
    var m := gs[i].members;
    assert Fold(m + [x], init, step) == step(Fold(m, init, step), x) by {
      assert (m + [x])[..|m|] == m;
    }
  }

  lemma {:induction false} FoldByKeyIsFoldGroups<T, K, A>(s: seq<T>, key: T -> K, init: A, step: (A, T) -> A)
    ensures FoldByKey(s, key, init, step) == FoldGroups(Accumulate(s, key), init, step)
  {
    if |s| > 0 {
      FoldByKeyIsFoldGroups(s[..|s| - 1], key, init, step);
      FoldGroupsAdd(Accumulate(s[..|s| - 1], key), s[|s| - 1], key, init, step);
    }
  }

  /**
   The accumulation loop yields one entry per key, in first-seen order, holding
   the fold of exactly the rows with that key.
   */
  lemma FoldByKeySpec<T, K, A>(s: seq<T>, key: T -> K, init: A, step: (A, T) -> A)
    ensures |FoldByKey(s, key, init, step)| == |GroupBy(s, key)|
    ensures forall i :: 0 <= i < |GroupBy(s, key)| ==>
      FoldByKey(s, key, init, step)[i] == Entry(GroupBy(s, key)[i].key, Fold(GroupBy(s, key)[i].members, init, step))
  {
    FoldByKeyIsFoldGroups(s, key, init, step);
  }

  /** Looking a key up in the accumulated map gives the fold of that key's rows, or `init` when it has none. */
  lemma GetEntryOfFoldByKey<T, K, A>(s: seq<T>, key: T -> K, init: A, step: (A, T) -> A, k: K)
    ensures GetEntry(FoldByKey(s, key, init, step), k, init) == Fold(Members(s, key, k), init, step)
  {
    FoldByKeyIsFoldGroups(s, key, init, step);
    var gs := Accumulate(s, key);
    AccumulateGroups(s, key);
    EntryIndexOfFold(gs, init, step, k);
    if KeyIndex(gs, k) < 0 {
      forall j | 0 <= j < |s|
        ensures key(s[j]) != k
      {
        assert KeyIndex(gs, key(s[j])) >= 0;
      }
      MembersNone(s, key, k);
    }
  }
}
