/**
 The training-history summary used as context for plan and session
 generation: weekly volume load keyed by ISO week, a volume trend, average
 session RPE and readiness, a week-based ACWR estimate, the most frequent
 exercises, warning flags, and the line-by-line context digest.

 The fetched rows (completions with their exercise results in ascending
 completion order, the feedback RPEs, the readiness logs of the last two weeks
 and the two profile rows) are inputs; a failed fetch is `None`.
 */
module AthleteHistory {
  import opened Common
  import opened Text
  import opened Sorting
  import opened Grouping
  import opened Records
  import opened IsoWeek
  import opened Ranked

  /** A completion with its local calendar date and its exercise results. */
  datatype HistoryCompletion = HistoryCompletion(completedOn: ValidDate, results: Option<seq<ExerciseResult>>)

  /** A readiness log: the subjective score and the three sub-scores the summary reads. */
  datatype ReadinessRow = ReadinessRow(
    subjectiveScore: Option<real>,
    sleepQuality: Option<real>,
    muscleSoreness: Option<real>,
    energyLevel: Option<real>)

  datatype Trend = Increasing | Stable | Decreasing

  // ------------------------------------------------------------------
  // Weekly volume
  // ------------------------------------------------------------------

  function WeekOf(c: HistoryCompletion): string {
    WeekKey(c.completedOn)
  }

  /** `(c.exercise_results || [])` summed as sets × reps × weight. */
  function CompletionVolume(c: HistoryCompletion): real {
    SessionVolume(c.results.GetOr([]))
  }

  function AddVolume(total: real, c: HistoryCompletion): real {
    total + CompletionVolume(c)
  }

  /** The `weeklyVolumes` map after the loop over the completions. */
  function WeeklyVolumes(cs: seq<HistoryCompletion>): seq<Entry<string, real>> {
    FoldByKey(cs, WeekOf, 0.0, AddVolume)
  }

  /** `Array.from(weeklyVolumes.values())` */
  function Volumes(es: seq<Entry<string, real>>): (vs: seq<real>)
    ensures |vs| == |es|
    ensures forall i :: 0 <= i < |es| ==> vs[i] == es[i].acc
  {
    if |es| == 0 then [] else [es[0].acc] + Volumes(es[1..])
  }

  lemma {:induction false} AddVolumeIsSum(s: seq<HistoryCompletion>)
    ensures Fold(s, 0.0, AddVolume) == SumBy(s, CompletionVolume)
  {
    if |s| > 0 {
      AddVolumeIsSum(s[..|s| - 1]);
    }
  }

  /**
   One entry per ISO week that has a completion, in first-seen order, holding
   the total volume of that week's completions.
   */
  lemma WeeklyVolumesSpec(cs: seq<HistoryCompletion>)
    ensures |WeeklyVolumes(cs)| == |GroupBy(cs, WeekOf)|
    ensures forall i :: 0 <= i < |WeeklyVolumes(cs)| ==>
      WeeklyVolumes(cs)[i].key == GroupBy(cs, WeekOf)[i].key &&
      WeeklyVolumes(cs)[i].acc == SumBy(Members(cs, WeekOf, WeeklyVolumes(cs)[i].key), CompletionVolume)
  {
    FoldByKeySpec(cs, WeekOf, 0.0, AddVolume);
    var gs := GroupBy(cs, WeekOf);
    forall i | 0 <= i < |gs|
      ensures Fold(gs[i].members, 0.0, AddVolume) == SumBy(Members(cs, WeekOf, gs[i].key), CompletionVolume)
    {
      AddVolumeIsSum(gs[i].members);
    }
  }

  /** A week key appears only if some completion falls in that week. */
  lemma WeekKeyHasCompletion(cs: seq<HistoryCompletion>, i: nat) returns (j: nat)
    requires i < |WeeklyVolumes(cs)|
    ensures j < |cs| && WeekOf(cs[j]) == WeeklyVolumes(cs)[i].key
  {
    WeeklyVolumesSpec(cs);
    var k := WeeklyVolumes(cs)[i].key;
    var gs := GroupBy(cs, WeekOf);
    assert gs[i].key == k && |Members(cs, WeekOf, k)| > 0;
    FirstIndexOfMember(cs, WeekOf, k);
    FirstIndexHasKey(cs, WeekOf, k);
    j := FirstIndex(cs, WeekOf, k);
  }

  /** Every completion's week has a key. */
  lemma CompletionHasWeekKey(cs: seq<HistoryCompletion>, j: nat) returns (i: nat)
    requires j < |cs|
    ensures i < |WeeklyVolumes(cs)| && WeeklyVolumes(cs)[i].key == WeekOf(cs[j])
  {
    WeeklyVolumesSpec(cs);
    i := KeyIndex(GroupBy(cs, WeekOf), WeekOf(cs[j]));
  }

  /** Week keys are distinct and in first-seen order. */
  lemma WeekKeysOrdered(cs: seq<HistoryCompletion>)
    ensures forall i, j :: 0 <= i < j < |WeeklyVolumes(cs)| ==>
      WeeklyVolumes(cs)[i].key != WeeklyVolumes(cs)[j].key &&
      FirstIndex(cs, WeekOf, WeeklyVolumes(cs)[i].key) < FirstIndex(cs, WeekOf, WeeklyVolumes(cs)[j].key)
  {
    WeeklyVolumesSpec(cs);
  }

  lemma {:induction false} SumOfFoldedSums(gs: seq<Group<string, HistoryCompletion>>)
    ensures Sum(Volumes(FoldGroups(gs, 0.0, AddVolume))) == GroupsTotal(gs, CompletionVolume)
  {
    if |gs| > 0 {
      var n := |gs| - 1;
      SumOfFoldedSums(gs[..n]);
      var vs := Volumes(FoldGroups(gs, 0.0, AddVolume));
      assert vs[..n] == Volumes(FoldGroups(gs[..n], 0.0, AddVolume));
      AddVolumeIsSum(gs[n].members);
    }
  }

  /** `totalVolumeLoad`: the weekly totals add up to the volume of all completions. */
  lemma WeeklyTotal(cs: seq<HistoryCompletion>)
    ensures Sum(Volumes(WeeklyVolumes(cs))) == SumBy(cs, CompletionVolume)
  {
    FoldByKeyIsFoldGroups(cs, WeekOf, 0.0, AddVolume);
    SumOfFoldedSums(Accumulate(cs, WeekOf));
    GroupByPreservesTotal(cs, WeekOf, CompletionVolume);
  }

  /** `weekVolsArray.length > 0 ? Math.round(total / length) : 0` */
  function AvgWeeklyVolume(vs: seq<real>): (avg: int)
    ensures |vs| == 0 ==> avg == 0
  {
    if |vs| > 0 then Round(Sum(vs) / (|vs| as real)) else 0
  }

  /** The average week lies between the lightest and the heaviest week, after rounding. */
  lemma AvgWeeklyVolumeBounds(vs: seq<real>, lo: real, hi: real)
    requires |vs| > 0
    requires forall i :: 0 <= i < |vs| ==> lo <= vs[i] <= hi
    ensures Round(lo) <= AvgWeeklyVolume(vs) <= Round(hi)
  {
    MeanBounds(vs, lo, hi);
    RoundMonotone(lo, Sum(vs) / (|vs| as real));
    RoundMonotone(Sum(vs) / (|vs| as real), hi);
  }

  // ------------------------------------------------------------------
  // Volume trend
  // ------------------------------------------------------------------

  /** Mean of the first `floor(n / 2)` weeks. */
  function FirstHalfMean(vs: seq<real>): real
    requires |vs| >= 2
  {
    var mid := |vs| / 2;
    Sum(vs[..mid]) / (mid as real)
  }

  /** Mean of the remaining weeks. */
  function SecondHalfMean(vs: seq<real>): real
    requires |vs| >= 2
  {
    var mid := |vs| / 2;
    Sum(vs[mid..]) / ((|vs| - mid) as real)
  }

  lemma ChangeThresholds(first: real, second: real)
    requires first > 0.0
    ensures ((second - first) / first) * 100.0 > 10.0 <==> second > first * 1.1
    ensures ((second - first) / first) * 100.0 < -10.0 <==> second < first * 0.9
  {
    var q := (second - first) / first;
    assert q * first == second - first;
    if q * 100.0 > 10.0 {
      assert q > 0.1;
      assert q * first > 0.1 * first;
    }
    if second > first * 1.1 {
      assert q * first > 0.1 * first;
      assert q > 0.1;
    }
    if q * 100.0 < -10.0 {
      assert q < -0.1;
      assert q * first < -0.1 * first;
    }
    if second < first * 0.9 {
      assert q * first < -0.1 * first;
      assert q < -0.1;
    }
  }

  /**
   Compares the two halves: stable with fewer than four weeks or an empty first
   half; otherwise increasing above a 10% rise and decreasing below a 10% fall.
   */
  function VolumeTrend(vs: seq<real>): (t: Trend)
    ensures |vs| < 4 ==> t == Stable
    ensures |vs| >= 4 && FirstHalfMean(vs) <= 0.0 ==> t == Stable
    ensures |vs| >= 4 && FirstHalfMean(vs) > 0.0 ==>
      (t == Increasing <==> SecondHalfMean(vs) > FirstHalfMean(vs) * 1.1) &&
      (t == Decreasing <==> SecondHalfMean(vs) < FirstHalfMean(vs) * 0.9)
  {
    if |vs| >= 4 then
      var firstHalf := FirstHalfMean(vs);
      var secondHalf := SecondHalfMean(vs);
      var changePercent := if firstHalf > 0.0 then ((secondHalf - firstHalf) / firstHalf) * 100.0 else 0.0;
      if firstHalf > 0.0 then ChangeThresholds(firstHalf, secondHalf); (
      if changePercent > 10.0 then Increasing
      else if changePercent < -10.0 then Decreasing
      else Stable)
      else Stable
    else Stable
  }

  lemma {:induction false} SumConstant(vs: seq<real>, c: real)
    requires forall i :: 0 <= i < |vs| ==> vs[i] == c
    ensures Sum(vs) == (|vs| as real) * c
  {
    if |vs| > 0 {
      SumConstant(vs[..|vs| - 1], c);
    }
  }

  /** The same volume every week is a stable trend. */
  lemma SteadyVolumeIsStable(vs: seq<real>, c: real)
    requires forall i :: 0 <= i < |vs| ==> vs[i] == c
    ensures VolumeTrend(vs) == Stable
  {
    if |vs| >= 4 {
      var mid := |vs| / 2;
      SumConstant(vs[..mid], c);
      SumConstant(vs[mid..], c);
      assert FirstHalfMean(vs) == c;
      assert SecondHalfMean(vs) == c;
    }
  }

  // ------------------------------------------------------------------
  // Average RPE and readiness
  // ------------------------------------------------------------------

  /** `filter(v => v != null).map(v => v!)` */
  function Present(xs: seq<Option<real>>): (vs: seq<real>)
    ensures |vs| <= |xs|
    ensures |vs| == 0 <==> forall i :: 0 <= i < |xs| ==> xs[i].None?
  {
    if |xs| == 0 then []
    else
      var rest := Present(xs[1..]);
      match xs[0]
      case Some(v) => [v] + rest
      case None => rest
  }

  /** The present values are exactly the values carried by the entries. */
  lemma {:induction false} PresentMembers(xs: seq<Option<real>>)
    ensures forall v {:trigger v in Present(xs)} {:trigger Some(v) in xs} :: v in Present(xs) <==> Some(v) in xs
  {
    if |xs| > 0 {
      PresentMembers(xs[1..]);
      assert forall v :: Some(v) in xs <==> xs[0] == Some(v) || Some(v) in xs[1..];
    }
  }

  /** Where the `i`-th present value came from. */
  lemma {:induction false} PresentSource(xs: seq<Option<real>>, i: nat) returns (j: nat)
    requires i < |Present(xs)|
    ensures j < |xs| && xs[j] == Some(Present(xs)[i])
  {
    var rest := Present(xs[1..]);
    match xs[0]
    case Some(v) =>
      assert Present(xs) == [v] + rest;
      if i == 0 {
        j := 0;
      } else {
        var k := PresentSource(xs[1..], i - 1);
        j := k + 1;
      }
    case None =>
      assert Present(xs) == rest;
      var k := PresentSource(xs[1..], i);
      j := k + 1;
  }

  /** The mean of the present values rounded to one decimal, or null when there are none. */
  function AvgRounded(xs: seq<Option<real>>): (r: Option<real>)
    ensures r.None? <==> forall i :: 0 <= i < |xs| ==> xs[i].None?
  {
    var vs := Present(xs);
    if |vs| > 0 then Some(Round1(Sum(vs) / (|vs| as real))) else None
  }

  lemma Round1Monotone(x: real, y: real)
    requires x <= y
    ensures Round1(x) <= Round1(y)
  {
    RoundMonotone(x * 10.0, y * 10.0);
  }

  /** Values on a bounded scale (RPE 1-10, readiness 1-10) average to a value on that scale. */
  lemma AvgRoundedBounds(xs: seq<Option<real>>, lo: real, hi: real)
    requires forall i :: 0 <= i < |xs| && xs[i].Some? ==> lo <= xs[i].value <= hi
    ensures AvgRounded(xs).Some? ==> Round1(lo) <= AvgRounded(xs).value <= Round1(hi)
  {
    var vs := Present(xs);
    if |vs| > 0 {
      forall i | 0 <= i < |vs|
        ensures lo <= vs[i] <= hi
      {
        var j := PresentSource(xs, i);
      }
      MeanBounds(vs, lo, hi);
      Round1Monotone(lo, Sum(vs) / (|vs| as real));
      Round1Monotone(Sum(vs) / (|vs| as real), hi);
    }
  }

  function SessionRpes(feedback: Option<seq<Option<real>>>): seq<Option<real>> {
    feedback.GetOr([])
  }

  function Scores(logs: seq<ReadinessRow>): (xs: seq<Option<real>>)
    ensures |xs| == |logs|
    ensures forall i :: 0 <= i < |logs| ==> xs[i] == logs[i].subjectiveScore
  {
    if |logs| == 0 then [] else [logs[0].subjectiveScore] + Scores(logs[1..])
  }

  function Soreness(logs: seq<ReadinessRow>): (xs: seq<Option<real>>)
    ensures |xs| == |logs|
    ensures forall i :: 0 <= i < |logs| ==> xs[i] == logs[i].muscleSoreness
  {
    if |logs| == 0 then [] else [logs[0].muscleSoreness] + Soreness(logs[1..])
  }

  /** Average soreness: the sum over logs that carry a value, divided by the number of all logs. */
  function AvgSoreness(logs: Option<seq<ReadinessRow>>): real {
    if logs.Some? then MeanOver(Present(Soreness(logs.value)), |logs.value|) else 0.0
  }

  /** The sum of `vs` divided by `n`, or 0 when `n` is 0. */
  function MeanOver(vs: seq<real>, n: nat): real {
    if n > 0 then Sum(vs) / (n as real) else 0.0
  }

  /** Dividing by more entries than there are values dilutes the mean by the values' share. */
  lemma DilutedMean(vs: seq<real>, n: nat)
    requires 0 < |vs| <= n
    ensures MeanOver(vs, n) == ((|vs| as real) / (n as real)) * (Sum(vs) / (|vs| as real))
  {
    ShareTimesMean(|vs| as real, n as real, Sum(vs));
  }

  lemma ShareTimesMean(k: real, n: real, total: real)
    requires k > 0.0 && n > 0.0
    ensures (k / n) * (total / k) == total / n
  {
    assert (k / n) * (total / k) == (k * total) / (n * k);
  }

  /** Logs without a soreness value dilute the average: it is the mean of the present values scaled by their share. */
  lemma AvgSorenessDilution(logs: seq<ReadinessRow>)
    requires |Present(Soreness(logs))| > 0
    ensures var vs := Present(Soreness(logs));
      AvgSoreness(Some(logs)) == ((|vs| as real) / (|logs| as real)) * (Sum(vs) / (|vs| as real))
  {
    assert |Present(Soreness(logs))| <= |Soreness(logs)| == |logs|;
    DilutedMean(Present(Soreness(logs)), |logs|);
  }

  // ------------------------------------------------------------------
  // ACWR over the last four present weeks
  // ------------------------------------------------------------------

  /** Last week's volume over the mean of the last four weeks that have completions, to two decimals. */
  function HistoryAcwr(vs: seq<real>): (r: Option<real>)
    ensures r.None? <==> |vs| < 4 || Sum(vs[|vs| - 4..]) <= 0.0
  {
    if |vs| >= 4 then
      var lastWeek := vs[|vs| - 1];
      var fourWeekAvg := Sum(vs[|vs| - 4..]) / 4.0;
      if fourWeekAvg > 0.0 then Some(Round2(lastWeek / fourWeekAvg)) else None
    else None
  }

  lemma LastWeekAtMostFour(last: real, total: real)
    requires 0.0 <= last <= total && total > 0.0
    ensures 0.0 <= last / (total / 4.0) <= 4.0
  {
    var q := last / total;
    assert q * total == last;
    assert (4.0 * q) * (total / 4.0) == last;
    assert last / (total / 4.0) == 4.0 * q;
    assert q <= 1.0;
  }

  /** With non-negative weekly volumes the estimate lies in [0, 4]. */
  lemma HistoryAcwrBounds(vs: seq<real>)
    requires forall i :: 0 <= i < |vs| ==> vs[i] >= 0.0
    ensures HistoryAcwr(vs).Some? ==> 0.0 <= HistoryAcwr(vs).value <= 4.0
  {
    if HistoryAcwr(vs).Some? {
      var last4 := vs[|vs| - 4..];
      ElementAtMostSum(last4, 3);
      assert last4[3] == vs[|vs| - 1];
      var x := vs[|vs| - 1] / (Sum(last4) / 4.0);
      LastWeekAtMostFour(vs[|vs| - 1], Sum(last4));
      RoundMonotone(x * 100.0, 400.0);
      RoundMonotone(0.0, x * 100.0);
      RoundOfInt(400);
      RoundOfInt(0);
    }
  }

  // ------------------------------------------------------------------
  // Top exercises
  // ------------------------------------------------------------------

  /** Results of all completions, completion by completion. */
  function AllResults(cs: seq<HistoryCompletion>): seq<ExerciseResult> {
    if |cs| == 0 then [] else cs[0].results.GetOr([]) + AllResults(cs[1..])
  }

  predicate HasName(r: ExerciseResult) {
    ExerciseName(r).Some?
  }

  function NameOf(r: ExerciseResult): string {
    ExerciseName(r).GetOr("")
  }

  /** The results the frequency loop counts: those with an exercise name. */
  function NamedResults(cs: seq<HistoryCompletion>): seq<ExerciseResult> {
    Filter(AllResults(cs), HasName)
  }

  datatype Freq = Freq(count: nat, bestWeight: real)

  /** `existing.count++`, and the best weight raised to `weight_used_kg || 0` when that is larger. */
  function CountResult(f: Freq, r: ExerciseResult): Freq {
    var weight := OrZero(r.weightUsedKg);
    Freq(f.count + 1, if weight > f.bestWeight then weight else f.bestWeight)
  }

  /** The `exerciseFreq` map after the loop. */
  function ExerciseFreq(named: seq<ExerciseResult>): seq<Entry<string, Freq>> {
    FoldByKey(named, NameOf, Freq(0, 0.0), CountResult)
  }

  /** Counting a name's results gives their number and the largest weight, or 0 when no weight is positive. */
  lemma {:induction false} CountResultSpec(ms: seq<ExerciseResult>)
    ensures Fold(ms, Freq(0, 0.0), CountResult).count == |ms|
    ensures Fold(ms, Freq(0, 0.0), CountResult).bestWeight >= 0.0
    ensures forall j :: 0 <= j < |ms| ==> OrZero(ms[j].weightUsedKg) <= Fold(ms, Freq(0, 0.0), CountResult).bestWeight
    ensures Fold(ms, Freq(0, 0.0), CountResult).bestWeight == 0.0 ||
      exists j :: 0 <= j < |ms| && OrZero(ms[j].weightUsedKg) == Fold(ms, Freq(0, 0.0), CountResult).bestWeight
  {
    if |ms| > 0 {
      var p := ms[..|ms| - 1];
      CountResultSpec(p);
      var b := Fold(p, Freq(0, 0.0), CountResult).bestWeight;
      assert forall j :: 0 <= j < |p| ==> ms[j] == p[j];
      if b != 0.0 && OrZero(ms[|ms| - 1].weightUsedKg) <= b {
        var j :| 0 <= j < |p| && OrZero(p[j].weightUsedKg) == b;
        assert ms[j] == p[j];
      }
    }
  }

  datatype TopExercise = TopExercise(name: string, frequency: nat, bestWeight: Option<real>)

  /** Sort key of `(a, b) => b.count - a.count`: descending count. */
  function ByCountDescending(e: Entry<string, Freq>): real {
    -(e.acc.count as real)
  }

  /** `bestWeight > 0 ? bestWeight : null` */
  function ToTop(e: Entry<string, Freq>): TopExercise {
    TopExercise(e.key, e.acc.count, if e.acc.bestWeight > 0.0 then Some(e.acc.bestWeight) else None)
  }

  function Min(a: int, b: int): int {
    if a <= b then a else b
  }

  /** The frequency entries sorted by count, descending, ties in first-seen order. */
  function RankedExercises(named: seq<ExerciseResult>): seq<Entry<string, Freq>> {
    StableSortBy(ExerciseFreq(named), ByCountDescending)
  }

  function TopExercises(named: seq<ExerciseResult>): (top: seq<TopExercise>)
    ensures |top| == Min(8, |GroupBy(named, NameOf)|)
  {
    var ranked := RankedExercises(named);
    FoldByKeySpec(named, NameOf, Freq(0, 0.0), CountResult);
    Map(ranked[..Min(8, |ranked|)], ToTop)
  }

  /** What each frequency entry says about the results with its name. */
  ghost predicate FaithfulEntry(named: seq<ExerciseResult>, e: Entry<string, Freq>) {
    var ms := Members(named, NameOf, e.key);
    && e.acc.count == |ms| > 0
    && e.acc.bestWeight >= 0.0
    && (forall j :: 0 <= j < |ms| ==> OrZero(ms[j].weightUsedKg) <= e.acc.bestWeight)
    && (e.acc.bestWeight == 0.0 || exists j :: 0 <= j < |ms| && OrZero(ms[j].weightUsedKg) == e.acc.bestWeight)
  }

  lemma ExerciseFreqFaithful(named: seq<ExerciseResult>)
    ensures forall i :: 0 <= i < |ExerciseFreq(named)| ==> FaithfulEntry(named, ExerciseFreq(named)[i])
    ensures forall i, j :: 0 <= i < j < |ExerciseFreq(named)| ==>
      ExerciseFreq(named)[i].key != ExerciseFreq(named)[j].key &&
      FirstIndex(named, NameOf, ExerciseFreq(named)[i].key) < FirstIndex(named, NameOf, ExerciseFreq(named)[j].key)
  {
    FoldByKeySpec(named, NameOf, Freq(0, 0.0), CountResult);
    var gs := GroupBy(named, NameOf);
    forall i | 0 <= i < |gs|
      ensures FaithfulEntry(named, ExerciseFreq(named)[i])
    {
      CountResultSpec(gs[i].members);
    }
  }

  lemma RankedFaithful(named: seq<ExerciseResult>, i: nat)
    requires i < |RankedExercises(named)|
    ensures FaithfulEntry(named, RankedExercises(named)[i])
  {
    var es := ExerciseFreq(named);
    var r := RankedExercises(named);
    ExerciseFreqFaithful(named);
    assert r[i] in multiset(es);
    var k :| 0 <= k < |es| && es[k] == r[i];
  }

  /** Equal counts keep first-seen order, and no name is ranked twice. */
  lemma RankedOrder(named: seq<ExerciseResult>, i: nat, j: nat)
    requires i < j < |RankedExercises(named)|
    ensures RankedExercises(named)[i].key != RankedExercises(named)[j].key
    ensures RankedExercises(named)[i].acc.count == RankedExercises(named)[j].acc.count ==>
      FirstIndex(named, NameOf, RankedExercises(named)[i].key) < FirstIndex(named, NameOf, RankedExercises(named)[j].key)
  {
    var es := ExerciseFreq(named);
    var r := RankedExercises(named);
    ExerciseFreqFaithful(named);
    if r[i].key == r[j].key {
      RankedFaithful(named, i);
      RankedFaithful(named, j);
      var i', j' := StableOrder(es, ByCountDescending, i, j);
    }
    if r[i].acc.count == r[j].acc.count {
      var i', j' := StableOrder(es, ByCountDescending, i, j);
    }
  }

  /** No listed exercise carries the name `n`. */
  ghost predicate Unlisted(top: seq<TopExercise>, n: string) {
    forall t :: 0 <= t < |top| ==> top[t].name != n
  }

  /**
   The listed exercise `t` ranks at least as high as the name `n`: `n` has no
   more results, and with as many it was seen later.
   */
  ghost predicate Outranks(named: seq<ExerciseResult>, t: TopExercise, n: string) {
    var c := |Members(named, NameOf, n)|;
    && c <= t.frequency
    && (c == t.frequency ==> FirstIndex(named, NameOf, t.name) < FirstIndex(named, NameOf, n))
  }

  /** The list is a top-N selection: a name left out never outranks a listed one. */
  lemma TopExercisesAreTop(named: seq<ExerciseResult>, j: nat, i: nat)
    requires j < |named| && Unlisted(TopExercises(named), NameOf(named[j]))
    requires i < |TopExercises(named)|
    ensures Outranks(named, TopExercises(named)[i], NameOf(named[j]))
  {
    var n := NameOf(named[j]);
    var es := ExerciseFreq(named);
    var r := RankedExercises(named);
    var top := TopExercises(named);
    var gs := GroupBy(named, NameOf);
    FoldByKeySpec(named, NameOf, Freq(0, 0.0), CountResult);
    var g := KeyIndex(gs, n);
    assert g >= 0;
    assert es[g].key == n;
    assert es[g] in multiset(r);
    var k :| 0 <= k < |r| && r[k] == es[g];
    assert k >= |top| by {
      forall t | 0 <= t < |top|
        ensures r[t].key != n
      {
        assert top[t] == ToTop(r[..|top|][t]);
      }
    }
    assert top[i] == ToTop(r[..|top|][i]);
    assert ByCountDescending(r[i]) <= ByCountDescending(r[k]);
    RankedFaithful(named, k);
    RankedOrder(named, i, k);
  }

  /** `TopExercisesAreTop` for every left-out name and every listed exercise. */
  lemma TopExercisesSelection(named: seq<ExerciseResult>)
    ensures forall j, i :: 0 <= j < |named| && Unlisted(TopExercises(named), NameOf(named[j])) && 0 <= i < |TopExercises(named)| ==>
      Outranks(named, TopExercises(named)[i], NameOf(named[j]))
  {
    forall j, i | 0 <= j < |named| && Unlisted(TopExercises(named), NameOf(named[j])) && 0 <= i < |TopExercises(named)|
      ensures Outranks(named, TopExercises(named)[i], NameOf(named[j]))
    {
      TopExercisesAreTop(named, j, i);
    }
  }

  /**
   At most eight exercises, by descending frequency, ties in first-seen order,
   each name once; a frequency is the number of named results with that name,
   and the best weight is their largest positive weight, or null
   (`TopExercisesSelection` adds that no name left out outranks a listed one).
   */
  lemma TopExercisesSpec(named: seq<ExerciseResult>)
    ensures |TopExercises(named)| <= 8
    ensures forall i, j :: 0 <= i < j < |TopExercises(named)| ==>
      TopExercises(named)[i].frequency >= TopExercises(named)[j].frequency &&
      TopExercises(named)[i].name != TopExercises(named)[j].name &&
      (TopExercises(named)[i].frequency == TopExercises(named)[j].frequency ==>
        FirstIndex(named, NameOf, TopExercises(named)[i].name) < FirstIndex(named, NameOf, TopExercises(named)[j].name))
    ensures forall i :: 0 <= i < |TopExercises(named)| ==>
      var t := TopExercises(named)[i];
      var ms := Members(named, NameOf, t.name);
      && t.frequency == |ms| > 0
      && (t.bestWeight.None? <==> forall k :: 0 <= k < |ms| ==> OrZero(ms[k].weightUsedKg) <= 0.0)
      && (t.bestWeight.Some? ==> forall k :: 0 <= k < |ms| ==> OrZero(ms[k].weightUsedKg) <= t.bestWeight.value)
      && (t.bestWeight.Some? ==> exists k :: 0 <= k < |ms| && OrZero(ms[k].weightUsedKg) == t.bestWeight.value)
  {
    var r := RankedExercises(named);
    var top := TopExercises(named);
    forall i, j | 0 <= i < j < |top|
      ensures top[i].frequency >= top[j].frequency && top[i].name != top[j].name
      ensures top[i].frequency == top[j].frequency ==> FirstIndex(named, NameOf, top[i].name) < FirstIndex(named, NameOf, top[j].name)
    {
      assert ByCountDescending(r[i]) <= ByCountDescending(r[j]);
      RankedOrder(named, i, j);
    }
    forall i | 0 <= i < |top|
      ensures var ms := Members(named, NameOf, top[i].name);
        && top[i].frequency == |ms| > 0
        && (top[i].bestWeight.None? <==> forall k :: 0 <= k < |ms| ==> OrZero(ms[k].weightUsedKg) <= 0.0)
        && (top[i].bestWeight.Some? ==> forall k :: 0 <= k < |ms| ==> OrZero(ms[k].weightUsedKg) <= top[i].bestWeight.value)
        && (top[i].bestWeight.Some? ==> exists k :: 0 <= k < |ms| && OrZero(ms[k].weightUsedKg) == top[i].bestWeight.value)
    {
      RankedFaithful(named, i);
      var ms := Members(named, NameOf, top[i].name);
      if r[i].acc.bestWeight > 0.0 {
        var k :| 0 <= k < |ms| && OrZero(ms[k].weightUsedKg) == r[i].acc.bestWeight;
      }
    }
  }

  // ------------------------------------------------------------------
  // Flags
  // ------------------------------------------------------------------

  datatype Flag =
    | HighAcwr(acwr: real)
    | LowAcwr(acwr: real)
    | HighRpe(rpe: real)
    | LowReadiness(score: real)
    | DecreasingVolume
    | ElevatedSoreness(average: real)

  /** Position of each flag in the fixed order the summary adds them. */
  function FlagRank(f: Flag): nat {
    match f
    case HighAcwr(_) => 0
    case LowAcwr(_) => 1
    case HighRpe(_) => 2
    case LowReadiness(_) => 3
    case DecreasingVolume => 4
    case ElevatedSoreness(_) => 5
  }

  predicate Raised(fs: seq<Flag>, rank: nat) {
    HasRank(fs, FlagRank, rank)
  }

  datatype FlagInputs = FlagInputs(acwr: Option<real>, avgRpe: Option<real>, avgReadiness: Option<real>, trend: Trend, avgSoreness: real)

  /** The flag pushed by the `n`-th test, carrying the value it reports. */
  function FlagItem(x: FlagInputs, n: nat): Flag {
    if n == 0 then HighAcwr(x.acwr.GetOr(0.0))
    else if n == 1 then LowAcwr(x.acwr.GetOr(0.0))
    else if n == 2 then HighRpe(x.avgRpe.GetOr(0.0))
    else if n == 3 then LowReadiness(x.avgReadiness.GetOr(0.0))
    else if n == 4 then DecreasingVolume
    else ElevatedSoreness(x.avgSoreness)
  }

  /** The `n`-th test; the ACWR, RPE and readiness tests start with a truthiness check. */
  predicate FlagApplies(x: FlagInputs, n: nat) {
    if n == 0 then Truthy(x.acwr) && x.acwr.value > 1.3
    else if n == 1 then Truthy(x.acwr) && x.acwr.value < 0.8 && x.acwr.value > 0.0
    else if n == 2 then Truthy(x.avgRpe) && x.avgRpe.value >= 8.5
    else if n == 3 then Truthy(x.avgReadiness) && x.avgReadiness.value <= 4.0
    else if n == 4 then x.trend == Decreasing
    else x.avgSoreness >= 3.5
  }

  /**
   The overtraining flags, each at most once and in the fixed order; the
   ACWR, RPE and readiness tests need a truthy value, so 0 or null raises none.
   */
  function Flags(acwr: Option<real>, avgRpe: Option<real>, avgReadiness: Option<real>, trend: Trend, avgSoreness: real): (fs: seq<Flag>)
    ensures forall i, j :: 0 <= i < j < |fs| ==> FlagRank(fs[i]) < FlagRank(fs[j])
    ensures Raised(fs, 0) <==> Truthy(acwr) && acwr.value > 1.3
    ensures Raised(fs, 1) <==> Truthy(acwr) && 0.0 < acwr.value < 0.8
    ensures Raised(fs, 2) <==> Truthy(avgRpe) && avgRpe.value >= 8.5
    ensures Raised(fs, 3) <==> Truthy(avgReadiness) && avgReadiness.value <= 4.0
    ensures Raised(fs, 4) <==> trend == Decreasing
    ensures Raised(fs, 5) <==> avgSoreness >= 3.5
    ensures !Truthy(acwr) ==> !Raised(fs, 0) && !Raised(fs, 1)
    ensures forall i :: 0 <= i < |fs| ==>
      fs[i] == FlagItem(FlagInputs(acwr, avgRpe, avgReadiness, trend, avgSoreness), FlagRank(fs[i]))
  {
    var x := FlagInputs(acwr, avgRpe, avgReadiness, trend, avgSoreness);
    SelectSpec(x, FlagApplies, FlagItem, FlagRank, 6);
    Select(x, FlagApplies, FlagItem, 0, 6)
  }

  // ------------------------------------------------------------------
  // Context digest
  // ------------------------------------------------------------------

  /** An exercise on the "Top exercises" line; its best weight is shown when present. */
  datatype Mention = Mention(name: string, bestWeight: Option<real>)

  /** One line of the digest, with the values it shows; number formatting is not modelled. */
  datatype Line =
    | AthleteLine(displayName: string)
    | LevelLine(level: string)
    | InjuriesLine(notes: string)
    | TrainingDataLine(weeksAnalyzed: nat)
    | VolumeLine(avgWeeklyVolume: int, trend: Trend)
    | RpeLine(avgSessionRpe: real)
    | ReadinessLine(avgReadiness: real)
    | AcwrLine(acwr: real)
    | TopExercisesLine(exercises: seq<Mention>)
    | FlagsLine(flags: seq<Flag>)

  function LineRank(l: Line): nat {
    match l
    case AthleteLine(_) => 0
    case LevelLine(_) => 1
    case InjuriesLine(_) => 2
    case TrainingDataLine(_) => 3
    case VolumeLine(_, _) => 4
    case RpeLine(_) => 5
    case ReadinessLine(_) => 6
    case AcwrLine(_) => 7
    case TopExercisesLine(_) => 8
    case FlagsLine(_) => 9
  }

  predicate Shown(ls: seq<Line>, l: Line) {
    exists i :: 0 <= i < |ls| && ls[i] == l
  }

  predicate ShownRank(ls: seq<Line>, rank: nat) {
    HasRank(ls, LineRank, rank)
  }

  datatype ContextData = ContextData(
    displayName: string,
    level: Option<string>,
    injuries: Option<string>,
    weeksAnalyzed: nat,
    avgWeeklyVolume: int,
    volumeTrend: Trend,
    avgSessionRpe: Option<real>,
    avgReadiness: Option<real>,
    acwr: Option<real>,
    topExercises: seq<TopExercise>,
    flags: seq<Flag>)

  function MentionOf(t: TopExercise): Mention {
    Mention(t.name, t.bestWeight)
  }

  /** `topExercises.slice(0, 5).map(...)` */
  function Mentions(top: seq<TopExercise>): (ms: seq<Mention>)
    ensures |ms| == Min(5, |top|)
    ensures forall k :: 0 <= k < |ms| ==> ms[k] == MentionOf(top[k])
  {
    Map(top[..Min(5, |top|)], MentionOf)
  }

  /** The line pushed by the `n`-th statement of `buildContextText`. */
  function LineItem(d: ContextData, n: nat): Line {
    if n == 0 then AthleteLine(d.displayName)
    else if n == 1 then LevelLine(d.level.GetOr(""))
    else if n == 2 then InjuriesLine(d.injuries.GetOr(""))
    else if n == 3 then TrainingDataLine(d.weeksAnalyzed)
    else if n == 4 then VolumeLine(d.avgWeeklyVolume, d.volumeTrend)
    else if n == 5 then RpeLine(d.avgSessionRpe.GetOr(0.0))
    else if n == 6 then ReadinessLine(d.avgReadiness.GetOr(0.0))
    else if n == 7 then AcwrLine(d.acwr.GetOr(0.0))
    else if n == 8 then TopExercisesLine(Mentions(d.topExercises))
    else FlagsLine(d.flags)
  }

  /** Whether the `n`-th line is pushed: unconditionally, or when its value is truthy. */
  predicate LineApplies(d: ContextData, n: nat) {
    if n == 1 then TruthyStr(d.level)
    else if n == 2 then TruthyStr(d.injuries)
    else if n == 5 then Truthy(d.avgSessionRpe)
    else if n == 6 then Truthy(d.avgReadiness)
    else if n == 7 then Truthy(d.acwr)
    else if n == 8 then |d.topExercises| > 0
    else if n == 9 then |d.flags| > 0
    else true
  }

  /** `buildContextText` before joining: the lines in fixed order, each pushed exactly when its test holds. */
  function ContextLines(d: ContextData): (ls: seq<Line>)
    ensures forall i, j :: 0 <= i < j < |ls| ==> LineRank(ls[i]) < LineRank(ls[j])
    ensures forall i :: 0 <= i < |ls| ==> LineRank(ls[i]) < 10 && ls[i] == LineItem(d, LineRank(ls[i]))
    ensures forall m: nat :: m < 10 ==> (ShownRank(ls, m) <==> LineApplies(d, m))
  {
    SelectSpec(d, LineApplies, LineItem, LineRank, 10);
    Select(d, LineApplies, LineItem, 0, 10)
  }

  /** The athlete line comes first, and there are at least three lines. */
  lemma ContextLinesFirst(d: ContextData)
    ensures |ContextLines(d)| >= 3 && ContextLines(d)[0] == AthleteLine(d.displayName)
  {
    var ls := ContextLines(d);
    var i0 := LineAt(d, 0);
    var i3 := LineAt(d, 3);
    var i4 := LineAt(d, 4);
    if i0 > 0 {
      assert LineRank(ls[0]) < LineRank(ls[i0]);
    }
  }

  /** The training-data and volume lines are always there. */
  lemma ContextLinesAlways(d: ContextData)
    ensures Shown(ContextLines(d), TrainingDataLine(d.weeksAnalyzed))
    ensures Shown(ContextLines(d), VolumeLine(d.avgWeeklyVolume, d.volumeTrend))
  {
    var i3 := LineAt(d, 3);
    var i4 := LineAt(d, 4);
  }

  /** Where the line of a statement whose test holds sits. */
  lemma LineAt(d: ContextData, m: nat) returns (i: nat)
    requires m < 10 && LineApplies(d, m)
    ensures i < |ContextLines(d)| && ContextLines(d)[i] == LineItem(d, m) && LineRank(ContextLines(d)[i]) == m
  {
    var ls := ContextLines(d);
    assert ShownRank(ls, m);
    i :| 0 <= i < |ls| && LineRank(ls[i]) == m;
  }

  /** The level, injuries, RPE, readiness and ACWR lines appear only for truthy values, the others only when non-empty. */
  lemma ContextLinesOptional(d: ContextData)
    ensures ShownRank(ContextLines(d), 1) <==> TruthyStr(d.level)
    ensures ShownRank(ContextLines(d), 2) <==> TruthyStr(d.injuries)
    ensures ShownRank(ContextLines(d), 5) <==> Truthy(d.avgSessionRpe)
    ensures ShownRank(ContextLines(d), 6) <==> Truthy(d.avgReadiness)
    ensures ShownRank(ContextLines(d), 7) <==> Truthy(d.acwr)
    ensures ShownRank(ContextLines(d), 8) <==> |d.topExercises| > 0
    ensures ShownRank(ContextLines(d), 9) <==> |d.flags| > 0
  {
    assert LineApplies(d, 1) == TruthyStr(d.level);
    assert LineApplies(d, 2) == TruthyStr(d.injuries);
    assert LineApplies(d, 5) == Truthy(d.avgSessionRpe);
    assert LineApplies(d, 6) == Truthy(d.avgReadiness);
    assert LineApplies(d, 7) == Truthy(d.acwr);
    assert LineApplies(d, 8) == (|d.topExercises| > 0);
    assert LineApplies(d, 9) == (|d.flags| > 0);
  }

  /** The exercise line names the first five exercises at most; the flags line holds all flags. */
  lemma ContextLinesPayload(d: ContextData, i: nat)
    requires i < |ContextLines(d)|
    ensures ContextLines(d)[i].TopExercisesLine? ==>
      var e := ContextLines(d)[i].exercises;
      |e| == Min(5, |d.topExercises|) && forall k :: 0 <= k < |e| ==> e[k] == MentionOf(d.topExercises[k])
    ensures ContextLines(d)[i].FlagsLine? ==> ContextLines(d)[i].flags == d.flags
  {
    var l := ContextLines(d)[i];
    var r := LineRank(l);
    assert l == LineItem(d, r);
    if l.TopExercisesLine? {
      assert r == 8;
      assert l.exercises == Mentions(d.topExercises);
    }
    if l.FlagsLine? {
      assert r == 9;
    }
  }

  /** `lines.join('\n')`, given how each line is rendered. */
  function ContextText(d: ContextData, render: Line -> string): string {
    Join(Map(ContextLines(d), render), "\n")
  }

  /** When no rendered line holds a line break, the text has one line per digest line and starts with the athlete line. */
  lemma ContextTextLines(d: ContextData, render: Line -> string)
    requires forall l :: Occurrences(render(l), '\n') == 0
    ensures Occurrences(ContextText(d, render), '\n') == |ContextLines(d)| - 1
    ensures |render(AthleteLine(d.displayName))| <= |ContextText(d, render)|
    ensures ContextText(d, render)[..|render(AthleteLine(d.displayName))|] == render(AthleteLine(d.displayName))
  {
    var ls := ContextLines(d);
    ContextLinesFirst(d);
    RenderedLines(ls, render);
  }

  lemma RenderedLines(ls: seq<Line>, render: Line -> string)
    requires |ls| > 0
    requires forall l :: Occurrences(render(l), '\n') == 0
    ensures Occurrences(Join(Map(ls, render), "\n"), '\n') == |ls| - 1
    ensures |render(ls[0])| <= |Join(Map(ls, render), "\n")|
    ensures Join(Map(ls, render), "\n")[..|render(ls[0])|] == render(ls[0])
  {
    var parts := Map(ls, render);
    assert forall i :: 0 <= i < |parts| ==> Occurrences(parts[i], '\n') == 0 by {
      forall i | 0 <= i < |parts|
        ensures Occurrences(parts[i], '\n') == 0
      {
        assert parts[i] == render(ls[i]);
      }
    }
    assert "\n" == ['\n'];
    JoinLines(parts, '\n');
  }

  // ------------------------------------------------------------------
  // getAthleteSummary
  // ------------------------------------------------------------------

  /** What the queries returned. */
  datatype HistoryData = HistoryData(
    profileName: Option<string>,
    competitionLevel: Option<string>,
    injuryNotes: Option<string>,
    completions: Option<seq<HistoryCompletion>>,
    feedbackRpe: Option<seq<Option<real>>>,
    readinessLogs: Option<seq<ReadinessRow>>)

  datatype Summary = Summary(
    athleteId: string,
    displayName: string,
    level: Option<string>,
    weeksAnalyzed: nat,
    totalVolumeLoad: int,
    avgWeeklyVolume: int,
    volumeTrend: Trend,
    avgSessionRpe: Option<real>,
    avgReadiness: Option<real>,
    topExercises: seq<TopExercise>,
    acwr: Option<real>,
    flags: seq<Flag>,
    context: ContextData)

  function Completions(h: HistoryData): seq<HistoryCompletion> {
    h.completions.GetOr([])
  }

  function OrText(x: Option<string>, fallback: string): (r: string)
    ensures TruthyStr(x) ==> r == x.value
    ensures !TruthyStr(x) ==> r == fallback
  {
    if TruthyStr(x) then x.value else fallback
  }

  function AthleteSummary(athleteId: string, h: HistoryData): (s: Summary)
    ensures s.weeksAnalyzed == |GroupBy(Completions(h), WeekOf)|
    ensures s.totalVolumeLoad == Round(SumBy(Completions(h), CompletionVolume))
    ensures s.displayName == OrText(h.profileName, "Unknown")
    ensures s.context.displayName == OrText(h.profileName, "Athlete")
    ensures s.level == NonEmpty(h.competitionLevel) && s.context.level == s.level
    ensures s.avgSessionRpe.None? <==> forall i :: 0 <= i < |SessionRpes(h.feedbackRpe)| ==> SessionRpes(h.feedbackRpe)[i].None?
    ensures |s.topExercises| <= 8
    ensures s.context.weeksAnalyzed == s.weeksAnalyzed && s.context.topExercises == s.topExercises
    ensures s.context.flags == s.flags && s.context.acwr == s.acwr
  {
    var cs := Completions(h);
    var weekly := WeeklyVolumes(cs);
    var vs := Volumes(weekly);
    WeeklyVolumesSpec(cs);
    WeeklyTotal(cs);
    var total := Sum(vs);
    var avgWeekly := AvgWeeklyVolume(vs);
    var trend := VolumeTrend(vs);
    var avgRpe := AvgRounded(SessionRpes(h.feedbackRpe));
    var avgReadiness := AvgRounded(Scores(h.readinessLogs.GetOr([])));
    var acwr := HistoryAcwr(vs);
    var top := TopExercises(NamedResults(cs));
    TopExercisesSpec(NamedResults(cs));
    var flags := Flags(acwr, avgRpe, avgReadiness, trend, AvgSoreness(h.readinessLogs));
    var level := NonEmpty(h.competitionLevel);
    var context := ContextData(
      OrText(h.profileName, "Athlete"), level, NonEmpty(h.injuryNotes), |vs|,
      avgWeekly, trend, avgRpe, avgReadiness, acwr, top, flags);
    Summary(athleteId, OrText(h.profileName, "Unknown"), level, |vs|, Round(total), avgWeekly,
      trend, avgRpe, avgReadiness, top, acwr, flags, context)
  }
}
