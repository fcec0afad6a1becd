/**
 Plan analytics: per-week planned and actual volume and intensity, per-athlete
 compliance on a plan, per-block summaries folded from the weekly rows, and
 the readiness overlay. The weekly queries' rows are part of the input: each
 block carries its weeks, each week its workouts and the completions found for
 them.

 Two columns read here do not exist in the schema: completions are looked up
 by `workout_id`, and actual volume reads `weight_used` (the column is
 `weight_used_kg`). The first makes the lookup fail in practice, which the
 model covers by taking its answer as input; the second makes actual volume 0
 for every input, which the model states.
 */
module PlanAnalytics {
  import opened Common
  import opened Text
  import opened Sorting
  import opened Grouping
  import opened Records

  // ------------------------------------------------------------------
  // getWeeklyTrends
  // ------------------------------------------------------------------

  /** A prescribed exercise of a workout. */
  datatype PlanExercise = PlanExercise(sets: Option<real>, reps: Option<string>, weightKg: Option<real>, intensityPercent: Option<real>)

  datatype TrendWorkout = TrendWorkout(id: string, exercises: Option<seq<PlanExercise>>)

  datatype TrendCompletion = TrendCompletion(results: Option<seq<ExerciseResult>>)

  /** A week of a block with what the per-week queries returned for it. */
  datatype BlockWeek = BlockWeek(
    id: string,
    weekNumber: int,
    isDeload: bool,
    workouts: Option<seq<TrendWorkout>>,
    completions: Option<seq<TrendCompletion>>)

  datatype TrendBlock = TrendBlock(name: string, blockType: Option<string>, weeks: Option<seq<BlockWeek>>)

  datatype WeeklyVolume = WeeklyVolume(
    weekId: string,
    weekNumber: int,
    blockName: string,
    blockType: Option<string>,
    plannedVolume: real,
    actualVolume: real,
    plannedIntensity: int,
    actualIntensity: int,
    sessionCount: nat,
    completedCount: nat,
    isDeload: bool)

  /** `sets && reps && weight`: all three read values are nonzero. */
  predicate AllNonzero(sets: real, reps: int, weight: real) {
    sets != 0.0 && reps != 0 && weight != 0.0
  }

  /** What one prescribed exercise adds to the planned volume. */
  function PlannedContribution(ex: PlanExercise): (v: real)
    ensures !AllNonzero(OrZero(ex.sets), RepsValue(ex.reps), OrZero(ex.weightKg)) ==> v == 0.0
  {
    var sets := OrZero(ex.sets);
    var reps := RepsValue(ex.reps);
    var weight := OrZero(ex.weightKg);
    if AllNonzero(sets, reps, weight) then Volume(sets, reps, weight) else 0.0
  }

  predicate Counted(ex: PlanExercise) {
    AllNonzero(OrZero(ex.sets), RepsValue(ex.reps), OrZero(ex.weightKg))
  }

  function PrescribedVolume(ex: PlanExercise): real {
    Volume(OrZero(ex.sets), RepsValue(ex.reps), OrZero(ex.weightKg))
  }

  function WorkoutExercises(w: TrendWorkout): seq<PlanExercise> {
    w.exercises.GetOr([])
  }

  /** Every exercise of every workout of the week, in order. */
  function WeekExercises(workouts: Option<seq<TrendWorkout>>): seq<PlanExercise> {
    FlatMap(workouts.GetOr([]), WorkoutExercises)
  }

  function PlannedVolume(workouts: Option<seq<TrendWorkout>>): real {
    SumBy(WeekExercises(workouts), PlannedContribution)
  }

  /** Planned volume is sets × reps × weight summed over the exercises where all three are nonzero. */
  lemma PlannedVolumeSpec(workouts: Option<seq<TrendWorkout>>)
    ensures PlannedVolume(workouts) == SumBy(Filter(WeekExercises(workouts), Counted), PrescribedVolume)
  {
    SumByGuarded(WeekExercises(workouts), Counted, PrescribedVolume, PlannedContribution);
  }

  /** Summing a guarded term over a sequence is summing the term over the elements that pass the guard. */
  lemma {:induction false} SumByGuarded<T>(s: seq<T>, p: T -> bool, f: T -> real, g: T -> real)
    requires forall x :: g(x) == if p(x) then f(x) else 0.0
    ensures SumBy(s, g) == SumBy(Filter(s, p), f)
  {
    if |s| > 0 {
      var init := s[..|s| - 1];
      var x := s[|s| - 1];
      SumByGuarded(init, p, f, g);
      assert s == init + [x];
      FilterSnoc(init, x, p);
      if p(x) {
        SumByConcat(Filter(init, p), [x], f);
        assert SumBy([x], f) == f(x) by {
          assert [x][..0] == [];
        }
      } else {
        assert Filter(s, p) == Filter(init, p);
      }
    }
  }

  /** Non-negative sets and weight, and a rep text without a minus sign. */
  predicate NonNegativePrescription(ex: PlanExercise) {
    OrZero(ex.sets) >= 0.0 && OrZero(ex.weightKg) >= 0.0 && (ex.reps.Some? ==> '-' !in ex.reps.value)
  }

  lemma ContributionNonNegative(ex: PlanExercise)
    requires NonNegativePrescription(ex)
    ensures PlannedContribution(ex) >= 0.0
  {
    var reps := RepsValue(ex.reps);
    RepsValueNonNegative(ex.reps);
    VolumeNonNegative(OrZero(ex.sets), reps, OrZero(ex.weightKg));
    assert PlannedContribution(ex) == if Counted(ex) then Volume(OrZero(ex.sets), reps, OrZero(ex.weightKg)) else 0.0;
  }

  /** Non-negative prescriptions give a non-negative planned volume. */
  lemma PlannedVolumeNonNegative(workouts: Option<seq<TrendWorkout>>)
    requires forall i :: 0 <= i < |WeekExercises(workouts)| ==> NonNegativePrescription(WeekExercises(workouts)[i])
    ensures PlannedVolume(workouts) >= 0.0
  {
    var exs := WeekExercises(workouts);
    forall i | 0 <= i < |exs|
      ensures PlannedContribution(exs[i]) >= 0.0
    {
      ContributionNonNegative(exs[i]);
    }
    SumByNonNegative(exs, PlannedContribution);
  }

  /** The truthy `intensity_percent` values, in order. */
  function Intensities(exs: seq<PlanExercise>): (xs: seq<real>)
    ensures |xs| <= |exs|
  {
    if |exs| == 0 then []
    else (if Truthy(exs[0].intensityPercent) then [exs[0].intensityPercent.value] else []) + Intensities(exs[1..])
  }

  lemma {:induction false} IntensitiesFrom(exs: seq<PlanExercise>, i: nat) returns (j: nat)
    requires i < |Intensities(exs)|
    ensures j < |exs| && Truthy(exs[j].intensityPercent) && exs[j].intensityPercent.value == Intensities(exs)[i]
  {
    if Truthy(exs[0].intensityPercent) {
      if i == 0 {
        j := 0;
      } else {
        var k := IntensitiesFrom(exs[1..], i - 1);
        j := k + 1;
      }
    } else {
      var k := IntensitiesFrom(exs[1..], i);
      j := k + 1;
    }
  }

  /** `intensityCount > 0 ? Math.round(intensitySum / intensityCount) : 0` */
  function PlannedIntensity(workouts: Option<seq<TrendWorkout>>): (r: int)
    ensures |Intensities(WeekExercises(workouts))| == 0 ==> r == 0
  {
    var xs := Intensities(WeekExercises(workouts));
    if |xs| > 0 then Round(Sum(xs) / (|xs| as real)) else 0
  }

  /** Intensities on a percentage scale average, after rounding, to a value on that scale. */
  lemma PlannedIntensityBounds(workouts: Option<seq<TrendWorkout>>, lo: real, hi: real)
    requires forall i :: 0 <= i < |WeekExercises(workouts)| && Truthy(WeekExercises(workouts)[i].intensityPercent) ==>
      lo <= WeekExercises(workouts)[i].intensityPercent.value <= hi
    requires |Intensities(WeekExercises(workouts))| > 0
    ensures Round(lo) <= PlannedIntensity(workouts) <= Round(hi)
  {
    var exs := WeekExercises(workouts);
    var xs := Intensities(exs);
    forall i | 0 <= i < |xs|
      ensures lo <= xs[i] <= hi
    {
      var j := IntensitiesFrom(exs, i);
    }
    MeanBounds(xs, lo, hi);
    RoundMonotone(lo, Sum(xs) / (|xs| as real));
    RoundMonotone(Sum(xs) / (|xs| as real), hi);
  }

  /** `r.weight_used`: the row has no such property, so the read is undefined. */
  function WeightUsed(r: ExerciseResult): Option<real> {
    None
  }

  function ActualContribution(r: ExerciseResult): real {
    var sets := OrZero(r.setsCompleted);
    var reps := RepsValue(r.repsCompleted);
    var weight := OrZero(WeightUsed(r));
    if AllNonzero(sets, reps, weight) then Volume(sets, reps, weight) else 0.0
  }

  function CompletionResults(c: TrendCompletion): seq<ExerciseResult> {
    c.results.GetOr([])
  }

  function ActualVolume(completions: seq<TrendCompletion>): real {
    SumBy(FlatMap(completions, CompletionResults), ActualContribution)
  }

  /** Actual volume reads a weight that is never there, so it is 0 whatever was completed. */
  lemma ActualVolumeAlwaysZero(completions: seq<TrendCompletion>)
    ensures ActualVolume(completions) == 0.0
  {
    SumByZero(FlatMap(completions, CompletionResults), ActualContribution);
  }

  lemma {:induction false} SumByZero<T>(s: seq<T>, f: T -> real)
    requires forall x :: f(x) == 0.0
    ensures SumBy(s, f) == 0.0
  {
    if |s| > 0 {
      SumByZero(s[..|s| - 1], f);
    }
  }

  /** The completions are looked up only when the week has workouts. */
  function WeekCompletions(w: BlockWeek): seq<TrendCompletion> {
    if |w.workouts.GetOr([])| > 0 then w.completions.GetOr([]) else []
  }

  /** The row pushed for one week of a block. */
  function WeekRow(b: TrendBlock, w: BlockWeek): (row: WeeklyVolume)
    ensures row.weekId == w.id && row.weekNumber == w.weekNumber && row.isDeload == w.isDeload
    ensures row.blockName == b.name && row.blockType == b.blockType
    ensures row.sessionCount == |w.workouts.GetOr([])|
    ensures row.completedCount == |WeekCompletions(w)|
    ensures row.actualVolume == 0.0 && row.actualIntensity == 0
  {
    ActualVolumeAlwaysZero(WeekCompletions(w));
    WeeklyVolume(w.id, w.weekNumber, b.name, b.blockType,
      PlannedVolume(w.workouts), ActualVolume(WeekCompletions(w)), PlannedIntensity(w.workouts), 0,
      |w.workouts.GetOr([])|, |WeekCompletions(w)|, w.isDeload)
  }

  function WeekNumberKey(w: BlockWeek): real {
    w.weekNumber as real
  }

  /** A block's weeks, stably sorted by `week_number`. */
  function SortedWeeks(b: TrendBlock): seq<BlockWeek> {
    StableSortBy(b.weeks.GetOr([]), WeekNumberKey)
  }

  function BlockRows(b: TrendBlock): seq<WeeklyVolume> {
    Map(SortedWeeks(b), (w: BlockWeek) => WeekRow(b, w))
  }

  /** `getWeeklyTrends`: nothing on a query error or a null result, else each block's rows in block order. */
  function WeeklyTrends(blocks: Result<Option<seq<TrendBlock>>>): seq<WeeklyVolume> {
    match blocks
    case Err(_) => []
    case Ok(None) => []
    case Ok(Some(bs)) => FlatMap(bs, BlockRows)
  }

  /** A block's rows: one per week, ascending by week number, each labelled with the block. */
  lemma BlockRowsSpec(b: TrendBlock)
    ensures |BlockRows(b)| == |b.weeks.GetOr([])|
    ensures forall i, j :: 0 <= i < j < |BlockRows(b)| ==> BlockRows(b)[i].weekNumber <= BlockRows(b)[j].weekNumber
    ensures forall i :: 0 <= i < |BlockRows(b)| ==> BlockRows(b)[i].blockName == b.name && BlockRows(b)[i].blockType == b.blockType
    ensures forall i :: 0 <= i < |BlockRows(b)| ==> exists w :: w in b.weeks.GetOr([]) && BlockRows(b)[i] == WeekRow(b, w)
  {
    var ws := SortedWeeks(b);
    var rows := BlockRows(b);
    forall i, j | 0 <= i < j < |rows|
      ensures rows[i].weekNumber <= rows[j].weekNumber
    {
      assert WeekNumberKey(ws[i]) <= WeekNumberKey(ws[j]);
    }
    forall i | 0 <= i < |rows|
      ensures exists w :: w in b.weeks.GetOr([]) && rows[i] == WeekRow(b, w)
    {
      SortedMembers(b.weeks.GetOr([]), WeekNumberKey, ws[i]);
      assert ws[i] in ws;
    }
  }

  /** Rows come block by block: adding a block appends its rows after the earlier blocks'. */
  lemma WeeklyTrendsBlockOrder(bs: seq<TrendBlock>, b: TrendBlock)
    ensures WeeklyTrends(Ok(Some(bs + [b]))) == WeeklyTrends(Ok(Some(bs))) + BlockRows(b)
  {
    assert WeeklyTrends(Ok(Some(bs + [b]))) == FlatMap(bs + [b], BlockRows);
    assert WeeklyTrends(Ok(Some(bs))) == FlatMap(bs, BlockRows);
    FlatMapConcat(bs, [b], BlockRows);
    assert [b][1..] == [];
    assert FlatMap([b], BlockRows) == BlockRows(b) + FlatMap([], BlockRows);
  }

  // ------------------------------------------------------------------
  // getAthleteCompliance
  // ------------------------------------------------------------------

  datatype PlanAssignment = PlanAssignment(athleteId: string, status: Status, athlete: Relation<Option<string>>)

  datatype AthleteCompliance = AthleteCompliance(
    athleteId: string,
    displayName: string,
    totalAssigned: nat,
    totalCompleted: nat,
    totalSkipped: nat,
    complianceRate: int)

  function AthleteOf(a: PlanAssignment): string {
    a.athleteId
  }

  /** `athleteProfile?.display_name || 'Unknown'` */
  function NameOfRow(a: PlanAssignment): string {
    var profile: Option<Option<string>> := Normalize(a.athlete);
    if profile.Some? && profile.value.Some? && profile.value.value != "" then profile.value.value else "Unknown"
  }

  predicate CompletedRow(a: PlanAssignment) {
    a.status == Completed
  }

  predicate SkippedRow(a: PlanAssignment) {
    a.status == Skipped
  }

  /** The map entry before the rate pass; `None` until the athlete's first row creates it. */
  function Tally(e: Option<AthleteCompliance>, a: PlanAssignment): Option<AthleteCompliance> {
    var entry := e.GetOr(AthleteCompliance(a.athleteId, NameOfRow(a), 0, 0, 0, 0));
    Some(entry.(
      totalAssigned := entry.totalAssigned + 1,
      totalCompleted := entry.totalCompleted + (if CompletedRow(a) then 1 else 0),
      totalSkipped := entry.totalSkipped + (if SkippedRow(a) then 1 else 0)))
  }

  /** Tallying one athlete's rows: the first row names the entry, and the totals count the rows. */
  lemma {:induction false} TallySpec(ms: seq<PlanAssignment>)
    requires |ms| > 0
    ensures Fold(ms, None, Tally).Some?
    ensures var e := Fold(ms, None, Tally).value;
      && e.athleteId == ms[0].athleteId
      && e.displayName == NameOfRow(ms[0])
      && e.totalAssigned == |ms|
      && e.totalCompleted == Count(ms, CompletedRow)
      && e.totalSkipped == Count(ms, SkippedRow)
      && e.complianceRate == 0
  {
    var n := |ms| - 1;
    var p := ms[..n];
    assert ms == p + [ms[n]];
    FilterSnoc(p, ms[n], CompletedRow);
    FilterSnoc(p, ms[n], SkippedRow);
    if n > 0 {
      TallySpec(p);
      assert p[0] == ms[0];
    } else {
      assert p == [];
    }
  }

  function WithRate(e: Entry<string, Option<AthleteCompliance>>): AthleteCompliance {
    var c := e.acc.GetOr(AthleteCompliance(e.key, "Unknown", 0, 0, 0, 0));
    c.(complianceRate := if c.totalAssigned > 0 then Round((c.totalCompleted as real) / (c.totalAssigned as real) * 100.0) else 0)
  }

  /** The map's entries in insertion order, with their rates. */
  function ComplianceEntries(assignments: seq<PlanAssignment>): seq<AthleteCompliance> {
    Map(FoldByKey(assignments, AthleteOf, None, Tally), WithRate)
  }

  function ByRateDescending(c: AthleteCompliance): real {
    -(c.complianceRate as real)
  }

  /** `getAthleteCompliance`: nothing on an error or a null result, else the entries sorted by rate, highest first. */
  function AthleteComplianceOf(assignments: Result<Option<seq<PlanAssignment>>>): seq<AthleteCompliance> {
    match assignments
    case Err(_) => []
    case Ok(None) => []
    case Ok(Some(rows)) => StableSortBy(ComplianceEntries(rows), ByRateDescending)
  }

  /** An entry that reports its athlete's rows correctly. */
  ghost predicate FaithfulCompliance(rows: seq<PlanAssignment>, c: AthleteCompliance) {
    var ms := Members(rows, AthleteOf, c.athleteId);
    && |ms| > 0
    && c.displayName == NameOfRow(ms[0])
    && c.totalAssigned == |ms|
    && c.totalCompleted == Count(ms, CompletedRow)
    && c.totalSkipped == Count(ms, SkippedRow)
    && c.complianceRate == Round((c.totalCompleted as real) / (c.totalAssigned as real) * 100.0)
  }

  lemma ComplianceEntriesFaithful(rows: seq<PlanAssignment>)
    ensures |ComplianceEntries(rows)| == |GroupBy(rows, AthleteOf)|
    ensures forall i :: 0 <= i < |ComplianceEntries(rows)| ==>
      ComplianceEntries(rows)[i].athleteId == GroupBy(rows, AthleteOf)[i].key &&
      FaithfulCompliance(rows, ComplianceEntries(rows)[i])
    ensures forall i, j :: 0 <= i < j < |ComplianceEntries(rows)| ==>
      ComplianceEntries(rows)[i].athleteId != ComplianceEntries(rows)[j].athleteId
  {
    FoldByKeySpec(rows, AthleteOf, None, Tally);
    var gs := GroupBy(rows, AthleteOf);
    var es := FoldByKey(rows, AthleteOf, None, Tally);
    forall i | 0 <= i < |gs|
      ensures ComplianceEntries(rows)[i].athleteId == gs[i].key && FaithfulCompliance(rows, ComplianceEntries(rows)[i])
    {
      MembersHaveKey(rows, AthleteOf, gs[i].key);
      TallySpec(gs[i].members);
    }
  }

  lemma SortedFaithful(rows: seq<PlanAssignment>, i: nat)
    requires i < |AthleteComplianceOf(Ok(Some(rows)))|
    ensures FaithfulCompliance(rows, AthleteComplianceOf(Ok(Some(rows)))[i])
  {
    var es := ComplianceEntries(rows);
    var r := AthleteComplianceOf(Ok(Some(rows)));
    ComplianceEntriesFaithful(rows);
    assert r[i] in multiset(es);
    var k :| 0 <= k < |es| && es[k] == r[i];
  }

  /** Two faithful entries for the same athlete are equal. */
  lemma FaithfulUnique(rows: seq<PlanAssignment>, c: AthleteCompliance, d: AthleteCompliance)
    requires FaithfulCompliance(rows, c) && FaithfulCompliance(rows, d) && c.athleteId == d.athleteId
    ensures c == d
  {
  }

  lemma SortedDistinct(rows: seq<PlanAssignment>, i: nat, j: nat)
    requires i < j < |AthleteComplianceOf(Ok(Some(rows)))|
    ensures AthleteComplianceOf(Ok(Some(rows)))[i].athleteId != AthleteComplianceOf(Ok(Some(rows)))[j].athleteId
  {
    var es := ComplianceEntries(rows);
    var r := StableSortBy(es, ByRateDescending);
    assert r == AthleteComplianceOf(Ok(Some(rows)));
    ComplianceEntriesFaithful(rows);
    if r[i].athleteId == r[j].athleteId {
      SortedFaithful(rows, i);
      SortedFaithful(rows, j);
      FaithfulUnique(rows, r[i], r[j]);
      var i', j' := StableOrder(es, ByRateDescending, i, j);
    }
  }

  /**
   One entry per athlete with an assignment, highest rate first; each counts
   that athlete's rows, completed and skipped never exceed assigned, and the
   rate is the rounded completed percentage.
   */
  lemma AthleteComplianceSpec(rows: seq<PlanAssignment>)
    ensures |AthleteComplianceOf(Ok(Some(rows)))| == |GroupBy(rows, AthleteOf)|
    ensures forall i, j :: 0 <= i < j < |AthleteComplianceOf(Ok(Some(rows)))| ==>
      AthleteComplianceOf(Ok(Some(rows)))[i].complianceRate >= AthleteComplianceOf(Ok(Some(rows)))[j].complianceRate &&
      AthleteComplianceOf(Ok(Some(rows)))[i].athleteId != AthleteComplianceOf(Ok(Some(rows)))[j].athleteId
    ensures forall i :: 0 <= i < |AthleteComplianceOf(Ok(Some(rows)))| ==>
      var c := AthleteComplianceOf(Ok(Some(rows)))[i];
      FaithfulCompliance(rows, c) && c.totalCompleted + c.totalSkipped <= c.totalAssigned && 0 <= c.complianceRate <= 100
    ensures forall j :: 0 <= j < |rows| ==>
      exists i :: 0 <= i < |AthleteComplianceOf(Ok(Some(rows)))| && AthleteComplianceOf(Ok(Some(rows)))[i].athleteId == rows[j].athleteId
  {
    var es := ComplianceEntries(rows);
    var r := StableSortBy(es, ByRateDescending);
    assert r == AthleteComplianceOf(Ok(Some(rows)));
    ComplianceEntriesFaithful(rows);
    assert |r| == |es|;
    forall i, j | 0 <= i < j < |r|
      ensures r[i].complianceRate >= r[j].complianceRate && r[i].athleteId != r[j].athleteId
    {
      assert ByRateDescending(r[i]) <= ByRateDescending(r[j]);
      SortedDistinct(rows, i, j);
    }
    forall i | 0 <= i < |r|
      ensures FaithfulCompliance(rows, r[i]) && r[i].totalCompleted + r[i].totalSkipped <= r[i].totalAssigned
      ensures 0 <= r[i].complianceRate <= 100
    {
      SortedFaithful(rows, i);
      FaithfulBounds(rows, r[i]);
    }
    forall j | 0 <= j < |rows|
      ensures exists i :: 0 <= i < |r| && r[i].athleteId == rows[j].athleteId
    {
      var i := SortedCovers(rows, j);
    }
  }

  lemma FaithfulBounds(rows: seq<PlanAssignment>, c: AthleteCompliance)
    requires FaithfulCompliance(rows, c)
    ensures c.totalCompleted + c.totalSkipped <= c.totalAssigned && 0 <= c.complianceRate <= 100
  {
    var ms := Members(rows, AthleteOf, c.athleteId);
    CountDisjoint(ms, CompletedRow, SkippedRow);
    CountMonotone(ms, CompletedRow, (a: PlanAssignment) => true);
    FilterAll(ms, (a: PlanAssignment) => true);
    RateBounds(c.totalCompleted, c.totalAssigned);
  }

  lemma SortedCovers(rows: seq<PlanAssignment>, j: nat) returns (i: nat)
    requires j < |rows|
    ensures i < |AthleteComplianceOf(Ok(Some(rows)))| && AthleteComplianceOf(Ok(Some(rows)))[i].athleteId == rows[j].athleteId
  {
    var es := ComplianceEntries(rows);
    var r := StableSortBy(es, ByRateDescending);
    assert r == AthleteComplianceOf(Ok(Some(rows)));
    ComplianceEntriesFaithful(rows);
    var gs := GroupBy(rows, AthleteOf);
    var k := KeyIndex(gs, rows[j].athleteId);
    assert es[k] in es;
    SortedMembers(es, ByRateDescending, es[k]);
    var i' :| 0 <= i' < |r| && r[i'] == es[k];
    i := i';
  }

  lemma RateBounds(completed: nat, total: nat)
    requires completed <= total && total > 0
    ensures 0 <= Round((completed as real) / (total as real) * 100.0) <= 100
  {
    var q := (completed as real) / (total as real);
    assert q * (total as real) == completed as real;
    assert q <= 1.0;
  }

  // ------------------------------------------------------------------
  // getBlockSummaries
  // ------------------------------------------------------------------

  datatype BlockSummary = BlockSummary(
    blockId: string,
    blockName: string,
    blockType: Option<string>,
    weekCount: nat,
    totalSessions: nat,
    completedSessions: nat,
    plannedVolume: real,
    actualVolume: real,
    avgRpe: Option<real>,
    pbCount: nat)

  /** The map key: the block's name, so equally named blocks share one summary. */
  function BlockKey(w: WeeklyVolume): string {
    w.blockName
  }

  /** Adding one week to its block's summary; `None` until the block's first week creates it. */
  function AddWeek(s: Option<BlockSummary>, w: WeeklyVolume): Option<BlockSummary> {
    var sum := s.GetOr(BlockSummary(w.blockName, w.blockName, w.blockType, 0, 0, 0, 0.0, 0.0, None, 0));
    Some(sum.(
      weekCount := sum.weekCount + 1,
      totalSessions := sum.totalSessions + w.sessionCount,
      completedSessions := sum.completedSessions + w.completedCount,
      plannedVolume := sum.plannedVolume + w.plannedVolume,
      actualVolume := sum.actualVolume + w.actualVolume))
  }

  function SumNatBy<T>(s: seq<T>, f: T -> nat): nat {
    if |s| == 0 then 0 else SumNatBy(s[..|s| - 1], f) + f(s[|s| - 1])
  }

  function WeekSessions(w: WeeklyVolume): nat { w.sessionCount }
  function WeekCompleted(w: WeeklyVolume): nat { w.completedCount }
  function WeekPlanned(w: WeeklyVolume): real { w.plannedVolume }
  function WeekActual(w: WeeklyVolume): real { w.actualVolume }

  lemma {:induction false} AddWeekSpec(ms: seq<WeeklyVolume>)
    requires |ms| > 0
    ensures Fold(ms, None, AddWeek).Some?
    ensures var s := Fold(ms, None, AddWeek).value;
      && s.blockId == ms[0].blockName && s.blockName == ms[0].blockName && s.blockType == ms[0].blockType
      && s.weekCount == |ms|
      && s.totalSessions == SumNatBy(ms, WeekSessions)
      && s.completedSessions == SumNatBy(ms, WeekCompleted)
      && s.plannedVolume == SumBy(ms, WeekPlanned)
      && s.actualVolume == SumBy(ms, WeekActual)
      && s.avgRpe.None? && s.pbCount == 0
  {
    var n := |ms| - 1;
    var p := ms[..n];
    if n > 0 {
      AddWeekSpec(p);
      assert p[0] == ms[0];
    } else {
      assert p == [];
    }
  }

  function Summarize(e: Entry<string, Option<BlockSummary>>): BlockSummary {
    e.acc.GetOr(BlockSummary(e.key, e.key, None, 0, 0, 0, 0.0, 0.0, None, 0))
  }

  /** `getBlockSummaries`: the weekly rows folded by block name, in first-seen order. */
  function BlockSummaries(weeks: seq<WeeklyVolume>): seq<BlockSummary> {
    Map(FoldByKey(weeks, BlockKey, None, AddWeek), Summarize)
  }

  /**
   One summary per distinct block name, in the order names first appear; it
   counts that name's weeks and sums their sessions and volumes, taking the
   type of the name's first week; the RPE and PB fields stay empty.
   */
  lemma BlockSummariesSpec(weeks: seq<WeeklyVolume>)
    ensures |BlockSummaries(weeks)| == |GroupBy(weeks, BlockKey)|
    ensures forall i :: 0 <= i < |BlockSummaries(weeks)| ==>
      var s := BlockSummaries(weeks)[i];
      var ms := Members(weeks, BlockKey, s.blockName);
      && s.blockName == GroupBy(weeks, BlockKey)[i].key && s.blockId == s.blockName
      && |ms| > 0 && s.blockType == ms[0].blockType
      && s.weekCount == |ms|
      && s.totalSessions == SumNatBy(ms, WeekSessions)
      && s.completedSessions == SumNatBy(ms, WeekCompleted)
      && s.plannedVolume == SumBy(ms, WeekPlanned)
      && s.actualVolume == SumBy(ms, WeekActual)
      && s.avgRpe.None? && s.pbCount == 0
    ensures forall i, j :: 0 <= i < j < |BlockSummaries(weeks)| ==> BlockSummaries(weeks)[i].blockName != BlockSummaries(weeks)[j].blockName
  {
    FoldByKeySpec(weeks, BlockKey, None, AddWeek);
    var gs := GroupBy(weeks, BlockKey);
    forall i | 0 <= i < |gs|
      ensures var s := BlockSummaries(weeks)[i];
        var ms := Members(weeks, BlockKey, s.blockName);
        && s.blockName == gs[i].key && s.blockId == s.blockName
        && |ms| > 0 && s.blockType == ms[0].blockType
        && s.weekCount == |ms|
        && s.totalSessions == SumNatBy(ms, WeekSessions)
        && s.completedSessions == SumNatBy(ms, WeekCompleted)
        && s.plannedVolume == SumBy(ms, WeekPlanned)
        && s.actualVolume == SumBy(ms, WeekActual)
        && s.avgRpe.None? && s.pbCount == 0
    {
      MembersHaveKey(weeks, BlockKey, gs[i].key);
      AddWeekSpec(gs[i].members);
    }
  }

  // ------------------------------------------------------------------
  // getReadinessTrend
  // ------------------------------------------------------------------

  datatype ReadinessPoint = ReadinessPoint(logDate: string, subjectiveScore: Option<real>)

  datatype TrendPoint = TrendPoint(date: string, score: real)

  predicate HasScore(l: ReadinessPoint) {
    l.subjectiveScore.Some?
  }

  function ToPoint(l: ReadinessPoint): TrendPoint {
    TrendPoint(l.logDate, l.subjectiveScore.GetOr(0.0))
  }

  function PointOf(l: ReadinessPoint): seq<TrendPoint> {
    if HasScore(l) then [ToPoint(l)] else []
  }

  /** `getReadinessTrend`: nothing on an error or a null result. */
  function ReadinessTrend(data: Result<Option<seq<ReadinessPoint>>>): seq<TrendPoint> {
    match data
    case Err(_) => []
    case Ok(None) => []
    case Ok(Some(logs)) => FlatMap(logs, PointOf)
  }

  /**
   The trend keeps the logs that have a score, in their order, as
   (date, score) points; every such log appears and no other.
   */
  lemma ReadinessTrendSpec(logs: seq<ReadinessPoint>)
    ensures ReadinessTrend(Ok(Some(logs))) == Map(Filter(logs, HasScore), ToPoint)
    ensures forall i :: 0 <= i < |ReadinessTrend(Ok(Some(logs)))| ==>
      exists l :: l in logs && l.subjectiveScore.Some? && ReadinessTrend(Ok(Some(logs)))[i] == TrendPoint(l.logDate, l.subjectiveScore.value)
    ensures |ReadinessTrend(Ok(Some(logs)))| == Count(logs, HasScore)
  {
    FlatMapIsFilterMap(logs, PointOf, HasScore, ToPoint);
    var kept := Filter(logs, HasScore);
    forall i | 0 <= i < |kept|
      ensures kept[i] in logs && HasScore(kept[i])
    {
      assert kept[i] in kept;
    }
  }
}
