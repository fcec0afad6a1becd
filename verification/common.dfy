/**
 Shared vocabulary of the model: optional and failing values, JavaScript's
 rounding, and the small sequence combinators (filter, count, sum) that the
 services use over fetched rows.
 */
module Common {

  /** A nullable value (`T | null | undefined` in the source). */
  datatype Option<+T> = None | Some(value: T) {
    function GetOr(default: T): T {
      match this
      case Some(v) => v
      case None => default
    }
  }

  /** A value or an error message (a thrown `Error` or a returned `{ error }`). */
  datatype Result<+T> = Ok(value: T) | Err(message: string)

  /** `x || 0` on a nullable number: null becomes 0. */
  function OrZero(x: Option<real>): real {
    x.GetOr(0.0)
  }

  /** `x || 0` on a nullable integer. */
  function OrZeroInt(x: Option<int>): int {
    x.GetOr(0)
  }

  /** A nullable number is truthy when it is present and nonzero. */
  predicate Truthy(x: Option<real>) {
    x.Some? && x.value != 0.0
  }

  /** A nullable string is truthy when it is present and non-empty. */
  predicate TruthyStr(x: Option<string>) {
    x.Some? && x.value != ""
  }

  /** `x || null` on a nullable string: the empty string becomes null. */
  function NonEmpty(x: Option<string>): (r: Option<string>)
    ensures r.Some? <==> TruthyStr(x)
    ensures r.Some? ==> r == x
  {
    if TruthyStr(x) then x else None
  }

  // ------------------------------------------------------------------
  // Rounding
  // ------------------------------------------------------------------

  /** `Math.round`: the nearest integer, halves rounded towards +infinity. */
  function Round(x: real): (r: int)
    ensures x - 0.5 < r as real <= x + 0.5
  {
    (x + 0.5).Floor
  }

  /** `Math.round(x * 10) / 10`: one decimal place. */
  function Round1(x: real): (r: real)
    ensures x - 0.05 < r <= x + 0.05
  {
    Round(x * 10.0) as real / 10.0
  }

  /** `Math.round(x * 100) / 100`: two decimal places. */
  function Round2(x: real): (r: real)
    ensures x - 0.005 < r <= x + 0.005
  {
    Round(x * 100.0) as real / 100.0
  }

  lemma RoundOfInt(n: int)
    ensures Round(n as real) == n
  {
  }

  lemma RoundMonotone(x: real, y: real)
    requires x <= y
    ensures Round(x) <= Round(y)
  {
  }

  // ------------------------------------------------------------------
  // Sequences
  // ------------------------------------------------------------------

  /** `s.filter(p)`: the elements satisfying `p`, in order. */
  function Filter<T>(s: seq<T>, p: T -> bool): (r: seq<T>)
    ensures |r| <= |s|
    ensures forall x :: x in r ==> x in s && p(x)
    ensures forall x :: x in s && p(x) ==> x in r
  {
    if |s| == 0 then []
    else if p(s[0]) then [s[0]] + Filter(s[1..], p)
    else Filter(s[1..], p)
  }

  /** `s.filter(p).length` */
  function Count<T>(s: seq<T>, p: T -> bool): nat {
    |Filter(s, p)|
  }

  lemma FilterCons<T>(h: T, t: seq<T>, p: T -> bool)
    ensures Filter([h] + t, p) == (if p(h) then [h] else []) + Filter(t, p)
  {
    assert ([h] + t)[1..] == t;
  }

  lemma FilterConcat<T>(a: seq<T>, b: seq<T>, p: T -> bool)
    ensures Filter(a + b, p) == Filter(a, p) + Filter(b, p)
  {
    if |a| == 0 {
      assert a + b == b;
    } else {
      assert (a + b)[1..] == a[1..] + b;
    }
  }

  lemma FilterSnoc<T>(a: seq<T>, x: T, p: T -> bool)
    ensures Filter(a + [x], p) == Filter(a, p) + (if p(x) then [x] else [])
  {
    FilterConcat(a, [x], p);
  }

  lemma FilterAll<T>(s: seq<T>, p: T -> bool)
    requires forall i :: 0 <= i < |s| ==> p(s[i])
    ensures Filter(s, p) == s
  {
    if |s| > 0 {
      FilterAll(s[1..], p);
    }
  }

  lemma FilterNone<T>(s: seq<T>, p: T -> bool)
    requires forall i :: 0 <= i < |s| ==> !p(s[i])
    ensures Filter(s, p) == []
  {
    if |s| > 0 {
      FilterNone(s[1..], p);
    }
  }

  /** Filtering by two predicates whose conjunction is impossible counts at most all elements. */
  lemma CountDisjoint<T>(s: seq<T>, p: T -> bool, q: T -> bool)
    requires forall x :: !(p(x) && q(x))
    ensures Count(s, p) + Count(s, q) <= |s|
  {
    if |s| > 0 {
      CountDisjoint(s[1..], p, q);
    }
  }

  /** A predicate implied by another filters at least as many elements. */
  lemma CountMonotone<T>(s: seq<T>, p: T -> bool, q: T -> bool)
    requires forall x :: p(x) ==> q(x)
    ensures Count(s, p) <= Count(s, q)
  {
    if |s| > 0 {
      CountMonotone(s[1..], p, q);
    }
  }

  /** `s.map(f)` */
  function Map<T, U>(s: seq<T>, f: T -> U): (r: seq<U>)
    ensures |r| == |s|
    ensures forall i :: 0 <= i < |s| ==> r[i] == f(s[i])
  {
    if |s| == 0 then [] else [f(s[0])] + Map(s[1..], f)
  }

  lemma MapCons<T, U>(h: T, t: seq<T>, f: T -> U)
    ensures Map([h] + t, f) == [f(h)] + Map(t, f)
  {
    assert ([h] + t)[1..] == t;
  }

  lemma MapConcat<T, U>(a: seq<T>, b: seq<T>, f: T -> U)
    ensures Map(a + b, f) == Map(a, f) + Map(b, f)
  {
    assert |Map(a + b, f)| == |Map(a, f) + Map(b, f)|;
    forall i | 0 <= i < |a + b|
      ensures Map(a + b, f)[i] == (Map(a, f) + Map(b, f))[i]
    {
      if i >= |a| {
        assert (a + b)[i] == b[i - |a|];
      }
    }
  }

  /** `for (x of s) out.push(...step(x))`: the steps' outputs concatenated in order. */
  function FlatMap<T, U>(s: seq<T>, step: T -> seq<U>): seq<U> {
    if |s| == 0 then [] else step(s[0]) + FlatMap(s[1..], step)
  }

  lemma {:induction false} FlatMapConcat<T, U>(a: seq<T>, b: seq<T>, step: T -> seq<U>)
    ensures FlatMap(a + b, step) == FlatMap(a, step) + FlatMap(b, step)
  {
    if |a| > 0 {
      assert (a + b)[1..] == a[1..] + b;
      FlatMapConcat(a[1..], b, step);
    } else {
      assert a + b == b;
    }
  }

  /** A loop that pushes `f(x)` for the elements satisfying `p` and nothing else is a filter followed by a map. */
  lemma {:induction false} FlatMapIsFilterMap<T, U>(s: seq<T>, step: T -> seq<U>, p: T -> bool, f: T -> U)
    requires forall x :: step(x) == if p(x) then [f(x)] else []
    ensures FlatMap(s, step) == Map(Filter(s, p), f)
  {
    if |s| > 0 {
      FlatMapIsFilterMap(s[1..], step, p, f);
      assert s == [s[0]] + s[1..];
      FilterCons(s[0], s[1..], p);
      if p(s[0]) {
        MapCons(s[0], Filter(s[1..], p), f);
      }
    }
  }

  /** `[...s].reverse()` */
  function Reverse<T>(s: seq<T>): (r: seq<T>)
    ensures |r| == |s|
    ensures forall i :: 0 <= i < |s| ==> r[i] == s[|s| - 1 - i]
  {
    if |s| == 0 then [] else Reverse(s[1..]) + [s[0]]
  }

  /** Length of the longest prefix of `s` whose elements all satisfy `p`. */
  function LeadingRun<T>(s: seq<T>, p: T -> bool): (k: nat)
    ensures k <= |s|
    ensures forall i :: 0 <= i < k ==> p(s[i])
    ensures k < |s| ==> !p(s[k])
  {
    if |s| == 0 || !p(s[0]) then 0 else 1 + LeadingRun(s[1..], p)
  }

  /** A prefix that satisfies `p` and is followed by an element that does not is the leading run. */
  lemma {:induction false} LeadingRunUnique<T>(s: seq<T>, p: T -> bool, k: nat)
    requires k <= |s| && (forall i :: 0 <= i < k ==> p(s[i])) && (k < |s| ==> !p(s[k]))
    ensures LeadingRun(s, p) == k
  {
    if k > 0 {
      assert forall i :: 0 <= i < k - 1 ==> s[1..][i] == s[i + 1];
      LeadingRunUnique(s[1..], p, k - 1);
    }
  }

  /** Sum of a sequence of reals, left to right (`reduce((a, b) => a + b, 0)`). */
  function Sum(s: seq<real>): real {
    if |s| == 0 then 0.0 else Sum(s[..|s| - 1]) + s[|s| - 1]
  }

  lemma SumConcat(a: seq<real>, b: seq<real>)
    ensures Sum(a + b) == Sum(a) + Sum(b)
  {
    if |b| > 0 {
      assert (a + b)[..|a + b| - 1] == a + b[..|b| - 1];
      SumConcat(a, b[..|b| - 1]);
    } else {
      assert a + b == a;
    }
  }

  lemma {:induction false} SumBounds(vs: seq<real>, lo: real, hi: real)
    requires forall i :: 0 <= i < |vs| ==> lo <= vs[i] <= hi
    ensures (|vs| as real) * lo <= Sum(vs) <= (|vs| as real) * hi
  {
    if |vs| > 0 {
      SumBounds(vs[..|vs| - 1], lo, hi);
    }
  }

  lemma QuotientBounds(total: real, n: real, lo: real, hi: real)
    requires n > 0.0 && n * lo <= total <= n * hi
    ensures lo <= total / n <= hi
  {
    assert total / n * n == total;
  }

  lemma MeanBounds(vs: seq<real>, lo: real, hi: real)
    requires |vs| > 0
    requires forall i :: 0 <= i < |vs| ==> lo <= vs[i] <= hi
    ensures lo <= Sum(vs) / (|vs| as real) <= hi
  {
    SumBounds(vs, lo, hi);
    QuotientBounds(Sum(vs), |vs| as real, lo, hi);
  }

  lemma SumNonNegative(s: seq<real>)
    requires forall i :: 0 <= i < |s| ==> s[i] >= 0.0
    ensures Sum(s) >= 0.0
  {
    if |s| > 0 {
      SumNonNegative(s[..|s| - 1]);
    }
  }

  /** Every element of a non-negative sequence is at most its sum. */
  lemma ElementAtMostSum(s: seq<real>, i: nat)
    requires forall j :: 0 <= j < |s| ==> s[j] >= 0.0
    requires i < |s|
    ensures s[i] <= Sum(s)
  {
    if i == |s| - 1 {
      SumNonNegative(s[..|s| - 1]);
    } else {
      ElementAtMostSum(s[..|s| - 1], i);
    }
  }

  /** Sum of a sequence of naturals. */
  function SumNat(s: seq<nat>): nat {
    if |s| == 0 then 0 else SumNat(s[..|s| - 1]) + s[|s| - 1]
  }

  lemma SumNatConcat(a: seq<nat>, b: seq<nat>)
    ensures SumNat(a + b) == SumNat(a) + SumNat(b)
  {
    if |b| > 0 {
      assert (a + b)[..|a + b| - 1] == a + b[..|b| - 1];
      SumNatConcat(a, b[..|b| - 1]);
    } else {
      assert a + b == a;
    }
  }

  /** Concatenation of a sequence of sequences. */
  function Flatten<T>(ss: seq<seq<T>>): seq<T> {
    if |ss| == 0 then [] else ss[0] + Flatten(ss[1..])
  }

  lemma FlattenConcat<T>(a: seq<seq<T>>, b: seq<seq<T>>)
    ensures Flatten(a + b) == Flatten(a) + Flatten(b)
  {
    if |a| == 0 {
      assert a + b == b;
    } else {
      assert (a + b)[1..] == a[1..] + b;
      FlattenConcat(a[1..], b);
    }
  }

  /** The nested loop `for (x of xs) for (y of ys) out.push(f(x, y))`. */
  function Product<X, Y, R>(xs: seq<X>, ys: seq<Y>, f: (X, Y) -> R): seq<R> {
    if |xs| == 0 then [] else Map(ys, (y: Y) => f(xs[0], y)) + Product(xs[1..], ys, f)
  }

  lemma MulSucc(i: nat, n: nat)
    requires i > 0
    ensures i * n == n + (i - 1) * n
  {
  }

  lemma MulBelow(i: nat, j: nat, m: nat, n: nat)
    requires i < m && j < n
    ensures i * n + j < m * n
  {
    assert (m - 1) * n >= i * n;
    MulSucc(m, n);
  }

  /** The nested loop yields one item per pair. */
  lemma {:induction false} ProductLength<X, Y, R>(xs: seq<X>, ys: seq<Y>, f: (X, Y) -> R)
    ensures |Product(xs, ys, f)| == |xs| * |ys|
  {
    if |xs| > 0 {
      ProductLength(xs[1..], ys, f);
      MulSucc(|xs|, |ys|);
    }
  }

  /** The nested loop puts the pair `(xs[i], ys[j])` at position `i * |ys| + j`. */
  lemma {:induction false} ProductAt<X, Y, R>(xs: seq<X>, ys: seq<Y>, f: (X, Y) -> R, i: nat, j: nat)
    requires i < |xs| && j < |ys|
    ensures 0 <= i * |ys| + j < |Product(xs, ys, f)|
    ensures Product(xs, ys, f)[i * |ys| + j] == f(xs[i], ys[j])
  {
    var n := |ys|;
    var k := i * n + j;
    ProductLength(xs, ys, f);
    MulBelow(i, j, |xs|, n);
    var head := Map(ys, (y: Y) => f(xs[0], y));
    var rest := Product(xs[1..], ys, f);
    assert Product(xs, ys, f) == head + rest;
    if i > 0 {
      ProductAt(xs[1..], ys, f, i - 1, j);
      assert xs[1..][i - 1] == xs[i];
      MulSucc(i, n);
      assert k == n + ((i - 1) * n + j);
      assert (head + rest)[k] == rest[(i - 1) * n + j];
    } else {
      assert k == j;
    }
  }

  /** Every item of the nested loop comes from one pair, at that pair's position. */
  lemma {:induction false} ProductSource<X, Y, R>(xs: seq<X>, ys: seq<Y>, f: (X, Y) -> R, k: nat) returns (i: nat, j: nat)
    requires k < |Product(xs, ys, f)|
    ensures i < |xs| && j < |ys| && k == i * |ys| + j && Product(xs, ys, f)[k] == f(xs[i], ys[j])
  {
    var n := |ys|;
    var head := Map(ys, (y: Y) => f(xs[0], y));
    var rest := Product(xs[1..], ys, f);
    assert Product(xs, ys, f) == head + rest;
    if k < n {
      i, j := 0, k;
    } else {
      var i', j' := ProductSource(xs[1..], ys, f, k - n);
      assert (head + rest)[k] == rest[k - n];
      assert xs[1..][i'] == xs[i' + 1];
      i, j := i' + 1, j';
      MulSucc(i, n);
    }
  }

  /** The first step from `from` on whose `attempt` fails, or `count` when none before `count` does. */
  function FirstFailure(attempt: nat -> Option<string>, from: nat, count: nat): (b: nat)
    requires from <= count
    ensures from <= b <= count
    ensures forall k :: from <= k < b ==> attempt(k).None?
    ensures b < count ==> attempt(b).Some?
    decreases count - from
  {
    if from == count then count
    else if attempt(from).Some? then from
    else FirstFailure(attempt, from + 1, count)
  }

  lemma {:induction false} FirstFailureAt(attempt: nat -> Option<string>, from: nat, b: nat, count: nat)
    requires from <= b < count && attempt(b).Some? && forall k :: from <= k < b ==> attempt(k).None?
    ensures FirstFailure(attempt, from, count) == b
    decreases b - from
  {
    if from < b {
      FirstFailureAt(attempt, from + 1, b, count);
    }
  }

  lemma {:induction false} FirstFailureNone(attempt: nat -> Option<string>, from: nat, count: nat)
    requires from <= count && forall k :: from <= k < count ==> attempt(k).None?
    ensures FirstFailure(attempt, from, count) == count
    decreases count - from
  {
    if from < count {
      FirstFailureNone(attempt, from + 1, count);
    }
  }

  /** `s.findIndex(p)`: the first index whose element satisfies `p`, or -1. */
  function FindIndex<T>(s: seq<T>, p: T -> bool): (r: int)
    ensures -1 <= r < |s|
    ensures r == -1 <==> forall i :: 0 <= i < |s| ==> !p(s[i])
    ensures r >= 0 ==> p(s[r]) && forall i :: 0 <= i < r ==> !p(s[i])
  {
    if |s| == 0 then -1
    else if p(s[0]) then 0
    else
      var k := FindIndex(s[1..], p);
      if k == -1 then -1 else k + 1
  }

  /** `s.find(p)`: the first element satisfying `p`. */
  function Find<T>(s: seq<T>, p: T -> bool): (r: Option<T>)
    ensures r.None? <==> forall i :: 0 <= i < |s| ==> !p(s[i])
    ensures r.Some? ==> exists i :: 0 <= i < |s| && s[i] == r.value && p(s[i])
    ensures r.Some? ==> r.value == s[FindIndex(s, p)]
  {
    var k := FindIndex(s, p);
    if k == -1 then None else Some(s[k])
  }

  /** `Array.isArray(x) ? x[0] ?? null : x ?? null`: a to-one relation that the backend may return as an array. */
  datatype Relation<T> = NoRow | One(row: T) | Rows(rows: seq<T>)

  function Normalize<T>(rel: Relation<T>): (r: Option<T>)
    ensures rel.NoRow? ==> r.None?
    ensures rel.One? ==> r == Some(rel.row)
    ensures rel.Rows? ==> (r.Some? <==> |rel.rows| > 0)
    ensures rel.Rows? && |rel.rows| > 0 ==> r == Some(rel.rows[0])
  {
    match rel
    case NoRow => None
    case One(x) => Some(x)
    case Rows(xs) => if |xs| > 0 then Some(xs[0]) else None
  }
}
