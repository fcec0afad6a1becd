/**
 The rule-based ("tier 1") adaptive suggestion engine. Each check reads rows
 already fetched from the database and emits zero or more suggestions with a
 fixed type, priority, recommendation payload and confidence:

   - progressive overload from the last completions' results,
   - deload from consecutive over-reaching sessions and from the rolling
     acute:chronic workload ratio (ACWR),
   - readiness adjustment from today's readiness log,
   - compliance alerts from the plan's assignments,
   - per-exercise progression from each exercise's latest result.

 The plan view concatenates the first four checks and sorts them stably by
 priority; the session view concatenates readiness and exercise progression.
 Human-readable descriptions (which format numbers with `toFixed`) are not
 rendered; the structured recommendation carries the same numbers.
 */
module Adaptive {
  import opened Common
  import opened Text
  import opened Sorting
  import opened Records

  const AcwrHighRisk: real := 1.3
  const AcwrLowRisk: real := 0.8
  const RpeOverreachThreshold: real := 1.5
  const RpeOverreachWindow: nat := 2
  const ReadinessLowThreshold: real := 4.0
  const ReadinessVeryLow: real := 3.0
  const ComplianceWarning: real := 0.7
  const ComplianceCritical: real := 0.5
  const OverloadIncrement: real := 0.025
  /** One week in milliseconds. */
  const Week: int := 7 * 24 * 60 * 60 * 1000

  datatype Kind = ProgressiveOverload | DeloadRecommended | ReadinessAdjustment | ComplianceAlert | VolumeCheck | RecoveryNeeded

  datatype Priority = Low | Medium | High | Critical

  datatype ContextType = PlanContext | BlockContext | WeekContext | SessionContext | ExerciseContext | AthleteContext

  /** The `recommendation` payload, one constructor per `action`. */
  datatype Recommendation =
    | IncreaseWeight(exerciseName: string, currentWeight: real, suggestedWeight: real, rpeBasis: real)
    | ProgressWeight(exerciseId: string, exerciseName: string, currentWeight: real, suggestedWeight: real, lastRpe: real)
    | InsertDeload(duration: string, volumeReduction: int, intensityCap: int)
    | ReduceVolume(acwr: real, acuteLoad: int, chronicAvg: int, suggestedReductionPercent: int)
    | IncreaseVolume(acwr: real, suggestedIncreasePercent: int)
    | SwapToRecovery(readinessScore: real, suggestedSessionType: string, volumeReduction: int, intensityCap: int)
    | ReduceSession(readinessScore: real, volumeReduction: int, intensityCap: int)
    | SimplifyProgram(complianceRate: int, sessionsMissed: int, reduceFrequency: bool, suggestedSessionsPerWeek: int)
    | CheckIn(complianceRate: int, sessionsMissed: int)

  /** A contributing factor of low readiness, with the logged value. */
  datatype Factor =
    | PoorSleepQuality(quality: real)
    | ShortSleep(hours: real)
    | HighSoreness(soreness: real)
    | LowEnergy(energy: real)
    | HighStress(stress: real)

  /**
   The rationale text. `Readiness(score, [])` is the generic sentence about
   self-reported low readiness; every other rationale is a fixed template
   filled with numbers and is not rendered.
   */
  datatype Rationale = Narrative | Readiness(score: Option<real>, factors: seq<Factor>)

  datatype Suggestion = Suggestion(
    kind: Kind,
    priority: Priority,
    title: string,
    rationale: Rationale,
    recommendation: Recommendation,
    confidence: int,
    contextType: ContextType,
    contextId: Option<string>)

  /** `priorityOrder`: critical 0, high 1, medium 2, low 3. */
  function PriorityRank(p: Priority): real {
    match p
    case Critical => 0.0
    case High => 1.0
    case Medium => 2.0
    case Low => 3.0
  }

  function PriorityKey(s: Suggestion): real {
    PriorityRank(s.priority)
  }

  // ------------------------------------------------------------------
  // 1. Progressive overload
  // ------------------------------------------------------------------

  /** A recent completion with its results (`exercise_results || []`). */
  datatype OverloadCompletion = OverloadCompletion(results: Option<seq<ExerciseResult>>)

  /** The prescription joined onto a result; results without one are skipped, so the default is never read. */
  function Prescription(r: ExerciseResult): ExerciseInfo {
    Normalize(r.exercise).GetOr(ExerciseInfo("", None, None))
  }

  /** The athlete did at least the prescribed weight and reps at a recorded RPE of at most 7.5. */
  predicate OverloadQualifies(r: ExerciseResult) {
    && Normalize(r.exercise).Some?
    && OrZero(r.weightUsedKg) >= OrZero(Prescription(r).weightKg)
    && RepsValue(r.repsCompleted) >= RepsValue(Prescription(r).reps)
    && 0.0 < OrZero(r.rpe) <= 7.5
  }

  /** The suggestion for one qualifying result. */
  function OverloadOf(r: ExerciseResult): (s: Suggestion)
    ensures s.kind == ProgressiveOverload && s.priority == Low
    ensures s.contextType == ExerciseContext && s.contextId == Some(r.exerciseId)
    ensures s.recommendation.IncreaseWeight?
    ensures s.recommendation.exerciseName == Prescription(r).name
    ensures s.recommendation.currentWeight == OrZero(Prescription(r).weightKg)
    ensures s.recommendation.rpeBasis == OrZero(r.rpe)
    ensures var p := OrZero(Prescription(r).weightKg);
      p * 1.025 - 0.1 < s.recommendation.suggestedWeight <= p * 1.025 + 0.1
    ensures s.confidence == 85 || s.confidence == 70
    ensures s.confidence == 85 <==> OrZero(r.rpe) <= 6.0
  {
    var e := Prescription(r);
    var prescribedWeight := OrZero(e.weightKg);
    var rpe := OrZero(r.rpe);
    var suggestedIncrease := Round1(prescribedWeight * OverloadIncrement);
    Suggestion(
      ProgressiveOverload, Low, "Increase " + e.name, Narrative,
      IncreaseWeight(e.name, prescribedWeight, Round1(prescribedWeight + suggestedIncrease), rpe),
      if rpe <= 6.0 then 85 else 70,
      ExerciseContext, Some(r.exerciseId))
  }

  /** The body of the inner loop for one result: skip it without a prescription, push a suggestion when it qualifies. */
  function OverloadStep(r: ExerciseResult): seq<Suggestion> {
    match Normalize(r.exercise)
    case None => []
    case Some(e) =>
      var prescribedWeight := OrZero(e.weightKg);
      var actualWeight := OrZero(r.weightUsedKg);
      var prescribedReps := RepsValue(e.reps);
      var actualReps := RepsValue(r.repsCompleted);
      var rpe := OrZero(r.rpe);
      if actualWeight >= prescribedWeight && actualReps >= prescribedReps && rpe > 0.0 && rpe <= 7.5
      then [OverloadOf(r)]
      else []
  }

  /** The inner loop over one completion's results. */
  function OverloadScan(c: OverloadCompletion): seq<Suggestion> {
    FlatMap(c.results.GetOr([]), OverloadStep)
  }

  /** The outer loop over the completions. */
  function OverloadLoop(cs: seq<OverloadCompletion>): seq<Suggestion> {
    FlatMap(cs, OverloadScan)
  }

  /** All results of the completions, completion by completion. */
  function AllResults(cs: seq<OverloadCompletion>): seq<ExerciseResult> {
    if |cs| == 0 then [] else cs[0].results.GetOr([]) + AllResults(cs[1..])
  }

  /**
   `checkProgressiveOverload`: nothing unless the plan has completed
   assignments and completions were fetched; then one suggestion per
   qualifying result. `assignedWorkouts` are the workout ids of the plan's
   completed assignments, which only parametrise the completions query.
   */
  function CheckOverload(assignedWorkouts: Option<seq<string>>, completions: Option<seq<OverloadCompletion>>): seq<Suggestion> {
    if assignedWorkouts.None? || |assignedWorkouts.value| == 0 then []
    else if completions.None? || |completions.value| == 0 then []
    else OverloadLoop(completions.value)
  }

  /** One step of the inner loop: the result contributes its suggestion exactly when it qualifies. */
  lemma OverloadStepSpec(r: ExerciseResult)
    ensures OverloadStep(r) == if OverloadQualifies(r) then [OverloadOf(r)] else []
  {
  }

  lemma OverloadScanSpec(rs: seq<ExerciseResult>)
    ensures FlatMap(rs, OverloadStep) == Map(Filter(rs, OverloadQualifies), OverloadOf)
  {
    forall r
      ensures OverloadStep(r) == if OverloadQualifies(r) then [OverloadOf(r)] else []
    {
      OverloadStepSpec(r);
    }
    FlatMapIsFilterMap(rs, OverloadStep, OverloadQualifies, OverloadOf);
  }

  lemma {:induction false} OverloadLoopSpec(cs: seq<OverloadCompletion>)
    ensures OverloadLoop(cs) == Map(Filter(AllResults(cs), OverloadQualifies), OverloadOf)
  {
    if |cs| > 0 {
      var head := cs[0].results.GetOr([]);
      OverloadLoopSpec(cs[1..]);
      OverloadScanSpec(head);
      FilterConcat(head, AllResults(cs[1..]), OverloadQualifies);
      MapConcat(Filter(head, OverloadQualifies), Filter(AllResults(cs[1..]), OverloadQualifies), OverloadOf);
    }
  }

  /**
   The overload check emits exactly one suggestion per qualifying
   (completion, result) pair, in fetch order, and nothing else.
   */
  lemma CheckOverloadSpec(assignedWorkouts: Option<seq<string>>, completions: Option<seq<OverloadCompletion>>)
    ensures var r := CheckOverload(assignedWorkouts, completions);
      if assignedWorkouts.None? || |assignedWorkouts.value| == 0 || completions.None? || |completions.value| == 0
      then r == []
      else r == Map(Filter(AllResults(completions.value), OverloadQualifies), OverloadOf)
  {
    if assignedWorkouts.Some? && |assignedWorkouts.value| > 0 && completions.Some? && |completions.value| > 0 {
      OverloadLoopSpec(completions.value);
    }
  }

  lemma CheckOverloadKinds(assignedWorkouts: Option<seq<string>>, completions: Option<seq<OverloadCompletion>>)
    ensures forall s :: s in CheckOverload(assignedWorkouts, completions) ==> s.kind == ProgressiveOverload && s.priority == Low
  {
    CheckOverloadSpec(assignedWorkouts, completions);
  }

  // ------------------------------------------------------------------
  // 2. Deload: consecutive over-reaching sessions
  // ------------------------------------------------------------------

  /** The assignment a completion belongs to, reduced to its workout id. */
  datatype AssignmentLink = AssignmentLink(workoutId: Option<string>)

  /** A recent completion, most recent first. */
  datatype DeloadCompletion = DeloadCompletion(overallRpe: Option<real>, assignment: Relation<AssignmentLink>)

  /** `recentFeedback`: session RPE and the linked workout (`assignment?.workout_id || null`). */
  datatype Feedback = Feedback(sessionRpe: real, workoutId: Option<string>)

  function LinkedWorkout(c: DeloadCompletion): (w: Option<string>)
    ensures w.Some? ==> w.value != ""
  {
    match Normalize(c.assignment)
    case None => None
    case Some(a) => NonEmpty(a.workoutId)
  }

  /** Completions with a recorded RPE, as feedback entries, order kept. */
  function FeedbackOf(cs: seq<DeloadCompletion>): (fs: seq<Feedback>)
    ensures |fs| <= |cs|
  {
    if |cs| == 0 then []
    else
      var rest := FeedbackOf(cs[1..]);
      if cs[0].overallRpe.Some? then [Feedback(cs[0].overallRpe.value, LinkedWorkout(cs[0]))] + rest else rest
  }

  /** The source's filter: `overall_rpe != null`. */
  predicate HasRpe(c: DeloadCompletion) {
    c.overallRpe.Some?
  }

  /** The source's map, applied to a completion that passed the filter. */
  function ToFeedback(c: DeloadCompletion): Feedback {
    match c.overallRpe
    case Some(rpe) => Feedback(rpe, LinkedWorkout(c))
    case None => Feedback(0.0, LinkedWorkout(c))
  }

  /** The feedback is exactly the filter-then-map pipeline over the completions. */
  lemma {:induction false} FeedbackOfSpec(cs: seq<DeloadCompletion>)
    ensures FeedbackOf(cs) == Map(Filter(cs, HasRpe), ToFeedback)
    ensures forall i :: 0 <= i < |FeedbackOf(cs)| ==> exists c :: c in cs && c.overallRpe == Some(FeedbackOf(cs)[i].sessionRpe) && FeedbackOf(cs)[i].workoutId == LinkedWorkout(c)
  {
    if |cs| > 0 {
      FeedbackOfSpec(cs[1..]);
      assert cs == [cs[0]] + cs[1..];
      FilterCons(cs[0], cs[1..], HasRpe);
      if HasRpe(cs[0]) {
        MapCons(cs[0], Filter(cs[1..], HasRpe), ToFeedback);
      }
    }
    var fs := FeedbackOf(cs);
    forall i | 0 <= i < |fs|
      ensures exists c :: c in cs && c.overallRpe == Some(fs[i].sessionRpe) && fs[i].workoutId == LinkedWorkout(c)
    {
      var c := Filter(cs, HasRpe)[i];
      assert c in Filter(cs, HasRpe);
    }
  }

  /** `workout?.target_rpe || 7`, where `targets` is the workouts lookup (None when no row or no target). */
  function TargetRpe(target: Option<real>): (t: real)
    ensures Truthy(target) ==> t == target.value
    ensures !Truthy(target) ==> t == 7.0
  {
    if Truthy(target) then target.value else 7.0
  }

  /** The walk over the feedback: unlinked entries are skipped, the first non-over-reaching session stops it. */
  function OverreachWalk(fs: seq<Feedback>, targets: string -> Option<real>): nat {
    if |fs| == 0 then 0
    else if !TruthyStr(fs[0].workoutId) then OverreachWalk(fs[1..], targets)
    else if fs[0].sessionRpe > TargetRpe(targets(fs[0].workoutId.value)) + RpeOverreachThreshold
    then 1 + OverreachWalk(fs[1..], targets)
    else 0
  }

  predicate Linked(f: Feedback) {
    TruthyStr(f.workoutId)
  }

  predicate Overreached(f: Feedback, targets: string -> Option<real>) {
    Linked(f) && f.sessionRpe > TargetRpe(targets(f.workoutId.value)) + RpeOverreachThreshold
  }

  /** The count of consecutive over-reaching sessions: the leading run, most recent first, among the linked sessions. */
  function OverreachCount(fs: seq<Feedback>, targets: string -> Option<real>): nat {
    LeadingRun(Filter(fs, Linked), f => Overreached(f, targets))
  }

  lemma {:induction false} OverreachWalkIsLeadingRun(fs: seq<Feedback>, targets: string -> Option<real>)
    ensures OverreachWalk(fs, targets) == OverreachCount(fs, targets)
  {
    if |fs| > 0 {
      OverreachWalkIsLeadingRun(fs[1..], targets);
      assert fs == [fs[0]] + fs[1..];
      FilterCons(fs[0], fs[1..], Linked);
    }
  }

  function DeloadOf(planId: string, count: nat): (s: Suggestion)
    requires count >= RpeOverreachWindow
    ensures s.kind == DeloadRecommended && s.priority == High
    ensures s.recommendation == InsertDeload("3-5 days", 40, 70)
    ensures s.confidence == (if count >= 3 then 90 else 75)
    ensures s.contextType == PlanContext && s.contextId == Some(planId)
  {
    Suggestion(DeloadRecommended, High, "Deload recommended", Narrative,
      InsertDeload("3-5 days", 40, 70), if count >= 3 then 90 else 75, PlanContext, Some(planId))
  }

  // ------------------------------------------------------------------
  // 2b. Rolling ACWR
  // ------------------------------------------------------------------

  /** A completion of the last four weeks with its results; `completedAt` in milliseconds. */
  datatype AcwrCompletion = AcwrCompletion(completedAt: int, results: Option<seq<ExerciseResult>>)

  /** Bucket `k` is the half-open window [now - (k+1) weeks, now - k weeks). */
  predicate InBucket(t: int, now: int, k: int) {
    now - (k + 1) * Week <= t < now - k * Week
  }

  function BucketVolume(cs: seq<AcwrCompletion>, now: int, k: int): real {
    if |cs| == 0 then 0.0
    else
      (if InBucket(cs[0].completedAt, now, k) then SessionVolume(cs[0].results.GetOr([])) else 0.0)
      + BucketVolume(cs[1..], now, k)
  }

  /** The four weekly buckets, the acute week first. */
  function Buckets(cs: seq<AcwrCompletion>, now: int): (b: seq<real>)
    ensures |b| == 4
    ensures forall k :: 0 <= k < 4 ==> b[k] == BucketVolume(cs, now, k)
  {
    [BucketVolume(cs, now, 0), BucketVolume(cs, now, 1), BucketVolume(cs, now, 2), BucketVolume(cs, now, 3)]
  }

  /** Sum of the positive buckets. */
  function ChronicTotal(b: seq<real>): real {
    if |b| == 0 then 0.0 else (if b[0] > 0.0 then b[0] else 0.0) + ChronicTotal(b[1..])
  }

  /** Number of positive buckets. */
  function ChronicWeeks(b: seq<real>): nat {
    if |b| == 0 then 0 else (if b[0] > 0.0 then 1 else 0) + ChronicWeeks(b[1..])
  }

  lemma {:induction false} ChronicBounds(b: seq<real>)
    ensures ChronicWeeks(b) <= |b|
    ensures ChronicTotal(b) >= 0.0
    ensures ChronicWeeks(b) == 0 <==> forall i :: 0 <= i < |b| ==> b[i] <= 0.0
    ensures ChronicWeeks(b) > 0 ==> ChronicTotal(b) > 0.0
  {
    if |b| > 0 {
      ChronicBounds(b[1..]);
      assert forall i :: 1 <= i < |b| ==> b[i] == b[1..][i - 1];
    }
  }

  /** The acute bucket, when positive, is part of the chronic total. */
  lemma ChronicIncludesAcute(b: seq<real>)
    requires |b| > 0 && b[0] > 0.0
    ensures b[0] <= ChronicTotal(b)
  {
    ChronicBounds(b[1..]);
  }

  /** The buckets have no positive week exactly when every bucket volume is at most 0. */
  lemma BucketsPositive(cs: seq<AcwrCompletion>, now: int)
    ensures ChronicWeeks(Buckets(cs, now)) == 0 <==> forall k :: 0 <= k < 4 ==> BucketVolume(cs, now, k) <= 0.0
    ensures ChronicWeeks(Buckets(cs, now)) > 0 ==> ChronicTotal(Buckets(cs, now)) / ChronicWeeks(Buckets(cs, now)) as real > 0.0
  {
    var b := Buckets(cs, now);
    ChronicBounds(b);
    if ChronicWeeks(b) == 0 {
      forall k | 0 <= k < 4
        ensures BucketVolume(cs, now, k) <= 0.0
      {
        assert b[k] == BucketVolume(cs, now, k);
      }
    } else {
      var i :| 0 <= i < 4 && b[i] > 0.0;
      assert BucketVolume(cs, now, i) > 0.0;
      DivPositive(ChronicTotal(b), ChronicWeeks(b) as real);
    }
  }

  lemma DivPositive(a: real, b: real)
    requires a > 0.0 && b > 0.0
    ensures a / b > 0.0
  {
    assert (a / b) * b == a;
  }

  lemma AcuteRatioBound(b: seq<real>)
    requires 0 < |b| <= 4 && ChronicWeeks(b) > 0
    ensures ChronicTotal(b) > 0.0
    ensures b[0] / (ChronicTotal(b) / ChronicWeeks(b) as real) <= 4.0
  {
    ChronicBounds(b);
    if b[0] > 0.0 {
      ChronicIncludesAcute(b);
    }
    RatioAtMostWeeks(b[0], ChronicTotal(b), ChronicWeeks(b));
  }

  /** Acute load, mean of the positive buckets, and their ratio. */
  datatype Workload = Workload(acute: real, chronicAvg: real, ratio: real)

  predicate WellFormed(w: Workload) {
    w.chronicAvg > 0.0 && w.ratio == w.acute / w.chronicAvg
  }

  lemma RatioAtMostWeeks(acute: real, total: real, weeks: nat)
    requires total > 0.0 && 0 < weeks <= 4 && acute <= total
    ensures acute / (total / weeks as real) <= 4.0
  {
    var avg := total / weeks as real;
    assert avg > 0.0;
    assert acute / avg == acute * weeks as real / total;
    if acute > 0.0 {
      assert acute * weeks as real <= total * weeks as real;
      assert acute * weeks as real / total <= weeks as real;
    } else {
      assert acute * weeks as real <= 0.0;
    }
  }

  /**
   The rolling workload: nothing when fewer than four completions were
   fetched or no bucket has positive volume; otherwise the acute bucket, the
   mean of the positive buckets and their ratio, which is at most 4.
   */
  function RollingWorkload(completions: Option<seq<AcwrCompletion>>, now: int): (r: Option<Workload>)
    ensures r.None? <==>
      completions.None? || |completions.value| < 4 || ChronicWeeks(Buckets(completions.value, now)) == 0
    ensures r.Some? ==> WellFormed(r.value)
    ensures r.Some? ==> r.value.acute == Buckets(completions.value, now)[0]
    ensures r.Some? ==> r.value.chronicAvg == ChronicTotal(Buckets(completions.value, now)) / ChronicWeeks(Buckets(completions.value, now)) as real
    ensures r.Some? ==> r.value.ratio <= 4.0
  {
    if completions.None? || |completions.value| < 4 then None
    else
      var b := Buckets(completions.value, now);
      ChronicBounds(b);
      var weeks := ChronicWeeks(b);
      if weeks == 0 then None
      else
        var avg := ChronicTotal(b) / weeks as real;
        if avg == 0.0 then None
        else
          AcuteRatioBound(b);
          Some(Workload(b[0], avg, b[0] / avg))
  }

  /**
   The rolling workload is missing exactly when fewer than four completions
   were fetched or no week has positive volume; otherwise its acute load is
   the volume of the week before `now`.
   */
  lemma RollingWorkloadSpec(completions: Option<seq<AcwrCompletion>>, now: int)
    ensures RollingWorkload(completions, now).None? <==>
      completions.None? || |completions.value| < 4 ||
      forall k :: 0 <= k < 4 ==> BucketVolume(completions.value, now, k) <= 0.0
    ensures RollingWorkload(completions, now).Some? ==>
      RollingWorkload(completions, now).value.acute == BucketVolume(completions.value, now, 0)
  {
    if completions.Some? && |completions.value| >= 4 {
      BucketsPositive(completions.value, now);
    }
  }

  /** The buckets are disjoint: a completion counts towards at most one week. */
  lemma BucketsDisjoint(t: int, now: int, j: int, k: int)
    requires InBucket(t, now, j) && InBucket(t, now, k)
    ensures j == k
  {
  }

  /** Every completion of the last four weeks lies in one of the four buckets. */
  lemma BucketsCover(t: int, now: int)
    requires now - 4 * Week <= t < now
    ensures exists k :: 0 <= k < 4 && InBucket(t, now, k)
  {
    if t >= now - Week {
      assert InBucket(t, now, 0);
    } else if t >= now - 2 * Week {
      assert InBucket(t, now, 1);
    } else if t >= now - 3 * Week {
      assert InBucket(t, now, 2);
    } else {
      assert InBucket(t, now, 3);
    }
  }

  /**
   The ACWR classification: a spike above 1.3 asks for a high-priority
   volume reduction, a ratio below 0.8 with some acute load a low-priority
   volume check, anything else nothing.
   */
  function ClassifyAcwr(planId: string, w: Workload): (r: Option<Suggestion>)
    requires WellFormed(w)
    ensures r.Some? && r.value.kind == DeloadRecommended <==> w.ratio > AcwrHighRisk
    ensures r.Some? && r.value.kind == VolumeCheck <==> w.ratio < AcwrLowRisk && w.acute > 0.0
    ensures r.None? <==> !(w.ratio > AcwrHighRisk) && !(w.ratio < AcwrLowRisk && w.acute > 0.0)
    ensures r.Some? && r.value.kind == DeloadRecommended ==>
      && r.value.priority == High && r.value.confidence == 80
      && r.value.recommendation.ReduceVolume?
      && r.value.recommendation.acuteLoad == Round(w.acute)
      && r.value.recommendation.chronicAvg == Round(w.chronicAvg)
      && 0 <= r.value.recommendation.suggestedReductionPercent <= 100
    ensures r.Some? && r.value.kind == VolumeCheck ==>
      && r.value.priority == Low && r.value.confidence == 65
      && r.value.recommendation.IncreaseVolume?
      && r.value.recommendation.suggestedIncreasePercent >= 0
    ensures r.Some? ==> r.value.contextType == PlanContext && r.value.contextId == Some(planId)
    ensures r.Some? ==>
      || (r.value.kind == DeloadRecommended && r.value.recommendation.ReduceVolume?)
      || (r.value.kind == VolumeCheck && r.value.recommendation.IncreaseVolume?)
    ensures r.Some? ==> w.ratio - 0.005 < r.value.recommendation.acwr <= w.ratio + 0.005
  {
    var acwr := w.ratio;
    if acwr > AcwrHighRisk then
      var cut := (1.0 - AcwrHighRisk / acwr) * 100.0;
      assert 0.0 < AcwrHighRisk / acwr < 1.0;
      RoundMonotone(0.0, cut);
      RoundMonotone(cut, 100.0);
      RoundOfInt(0);
      RoundOfInt(100);
      Some(Suggestion(DeloadRecommended, High, "High workload spike detected", Narrative,
        ReduceVolume(Round2(acwr), Round(w.acute), Round(w.chronicAvg), Round(cut)),
        80, PlanContext, Some(planId)))
    else if acwr < AcwrLowRisk && w.acute > 0.0 then
      assert acwr > 0.0;
      var raise := (AcwrLowRisk / acwr - 1.0) * 100.0;
      assert AcwrLowRisk / acwr > 1.0;
      RoundMonotone(0.0, raise);
      RoundOfInt(0);
      Some(Suggestion(VolumeCheck, Low, "Training volume may be too low", Narrative,
        IncreaseVolume(Round2(acwr), Round(raise)),
        65, PlanContext, Some(planId)))
    else None
  }

  /** `_computeAcwr`. */
  function ComputeAcwr(planId: string, completions: Option<seq<AcwrCompletion>>, now: int): (r: Option<Suggestion>)
    ensures r.Some? ==> RollingWorkload(completions, now).Some?
    ensures RollingWorkload(completions, now).Some? ==> r == ClassifyAcwr(planId, RollingWorkload(completions, now).value)
  {
    match RollingWorkload(completions, now)
    case None => None
    case Some(w) => ClassifyAcwr(planId, w)
  }

  /**
   `checkDeloadNeeded`: nothing at all (not even the ACWR check) with fewer
   than two recent completions; otherwise a deload when at least two
   consecutive linked sessions over-reached, followed by the ACWR suggestion
   if there is one.
   */
  /** The over-reach half of the deload check: a deload iff at least two consecutive linked sessions over-reached. */
  function OverreachPart(planId: string, recent: seq<DeloadCompletion>, targets: string -> Option<real>): (r: seq<Suggestion>)
    ensures |r| <= 1
    ensures |r| == 1 <==> OverreachCount(FeedbackOf(recent), targets) >= RpeOverreachWindow
    ensures |r| == 1 ==> r[0] == DeloadOf(planId, OverreachCount(FeedbackOf(recent), targets))
  {
    var feedback := FeedbackOf(recent);
    var consecutive := OverreachWalk(feedback, targets);
    OverreachWalkIsLeadingRun(feedback, targets);
    if consecutive >= RpeOverreachWindow then [DeloadOf(planId, consecutive)] else []
  }

  function AcwrPart(planId: string, completions: Option<seq<AcwrCompletion>>, now: int): (r: seq<Suggestion>)
    ensures |r| <= 1
    ensures |r| == 1 <==> ComputeAcwr(planId, completions, now).Some?
    ensures |r| == 1 ==> r[0] == ComputeAcwr(planId, completions, now).value
    ensures |r| == 1 ==> !r[0].recommendation.InsertDeload?
    ensures |r| == 1 ==> r[0].kind == DeloadRecommended || r[0].kind == VolumeCheck
  {
    match ComputeAcwr(planId, completions, now)
    case None => []
    case Some(s) => [s]
  }

  /**
   `checkDeloadNeeded`: nothing at all (not even the ACWR check) with fewer
   than two recent completions; otherwise a deload when at least two
   consecutive linked sessions over-reached, followed by the ACWR suggestion
   if there is one.
   */
  function CheckDeload(
    planId: string, recent: Option<seq<DeloadCompletion>>, targets: string -> Option<real>,
    acwrCompletions: Option<seq<AcwrCompletion>>, now: int): (r: seq<Suggestion>)
    ensures recent.None? || |recent.value| < 2 ==> r == []
    ensures |r| <= 2
    ensures forall i :: 0 <= i < |r| ==> r[i].kind == DeloadRecommended || r[i].kind == VolumeCheck
    ensures recent.Some? && |recent.value| >= 2 ==>
      && ((|r| > 0 && r[0].recommendation.InsertDeload?) <==> OverreachCount(FeedbackOf(recent.value), targets) >= RpeOverreachWindow)
      && (|r| > 0 && r[0].recommendation.InsertDeload? ==> r[0] == DeloadOf(planId, OverreachCount(FeedbackOf(recent.value), targets)))
      && (ComputeAcwr(planId, acwrCompletions, now).Some? <==> |r| > 0 && !r[|r| - 1].recommendation.InsertDeload?)
      && (ComputeAcwr(planId, acwrCompletions, now).Some? ==> r[|r| - 1] == ComputeAcwr(planId, acwrCompletions, now).value)
  {
    if recent.None? || |recent.value| < 2 then []
    else OverreachPart(planId, recent.value, targets) + AcwrPart(planId, acwrCompletions, now)
  }

  // ------------------------------------------------------------------
  // 3. Readiness
  // ------------------------------------------------------------------

  /** Today's `readiness_logs` row. */
  datatype ReadinessLog = ReadinessLog(
    subjectiveScore: Option<real>,
    sleepQuality: Option<real>,
    sleepHours: Option<real>,
    muscleSoreness: Option<real>,
    energyLevel: Option<real>,
    stressLevel: Option<real>)

  /** The position of a factor in the rationale. */
  function FactorRank(f: Factor): nat {
    match f
    case PoorSleepQuality(_) => 0
    case ShortSleep(_) => 1
    case HighSoreness(_) => 2
    case LowEnergy(_) => 3
    case HighStress(_) => 4
  }

  /** A factor together with the field of the log it reports. */
  predicate Reports(log: ReadinessLog, f: Factor) {
    match f
    case PoorSleepQuality(v) => log.sleepQuality == Some(v)
    case ShortSleep(v) => log.sleepHours == Some(v)
    case HighSoreness(v) => log.muscleSoreness == Some(v)
    case LowEnergy(v) => log.energyLevel == Some(v)
    case HighStress(v) => log.stressLevel == Some(v)
  }

  /** The factor of rank `n` (0 quality, 1 hours, 2 soreness, 3 energy, 4 stress) as it would be listed. */
  function Candidate(log: ReadinessLog, n: nat): (f: Factor)
    requires n < 5
    ensures FactorRank(f) == n
  {
    if n == 0 then PoorSleepQuality(OrZero(log.sleepQuality))
    else if n == 1 then ShortSleep(OrZero(log.sleepHours))
    else if n == 2 then HighSoreness(OrZero(log.muscleSoreness))
    else if n == 3 then LowEnergy(OrZero(log.energyLevel))
    else HighStress(OrZero(log.stressLevel))
  }

  /** The thresholds: sleep quality at most 2, under 6 hours of sleep, soreness at least 4, energy at most 2, stress at least 4; a missing or zero value never counts. */
  predicate Applies(log: ReadinessLog, n: nat)
    requires n < 5
  {
    if n == 0 then Truthy(log.sleepQuality) && log.sleepQuality.value <= 2.0
    else if n == 1 then Truthy(log.sleepHours) && log.sleepHours.value < 6.0
    else if n == 2 then Truthy(log.muscleSoreness) && log.muscleSoreness.value >= 4.0
    else if n == 3 then Truthy(log.energyLevel) && log.energyLevel.value <= 2.0
    else Truthy(log.stressLevel) && log.stressLevel.value >= 4.0
  }

  /** The checks of rank `n` and above, in order. */
  function FactorsFrom(log: ReadinessLog, n: nat): seq<Factor>
    decreases 5 - n
  {
    if n >= 5 then []
    else (if Applies(log, n) then [Candidate(log, n)] else []) + FactorsFrom(log, n + 1)
  }

  lemma {:induction false} FactorsFromOrdered(log: ReadinessLog, n: nat)
    ensures forall i :: 0 <= i < |FactorsFrom(log, n)| ==> n <= FactorRank(FactorsFrom(log, n)[i]) < 5
    ensures forall i, j :: 0 <= i < j < |FactorsFrom(log, n)| ==>
      FactorRank(FactorsFrom(log, n)[i]) < FactorRank(FactorsFrom(log, n)[j])
    decreases 5 - n
  {
    if n < 5 {
      FactorsFromOrdered(log, n + 1);
    }
  }

  lemma {:induction false} FactorsFromListed(log: ReadinessLog, n: nat)
    ensures forall f :: f in FactorsFrom(log, n) ==>
      FactorRank(f) < 5 && f == Candidate(log, FactorRank(f)) && Applies(log, FactorRank(f))
    decreases 5 - n
  {
    if n < 5 {
      FactorsFromListed(log, n + 1);
    }
  }

  lemma {:induction false} FactorsFromComplete(log: ReadinessLog, n: nat)
    ensures forall m :: n <= m < 5 && Applies(log, m) ==> Candidate(log, m) in FactorsFrom(log, n)
    decreases 5 - n
  {
    if n < 5 {
      FactorsFromComplete(log, n + 1);
    }
  }

  lemma CandidateReports(log: ReadinessLog, n: nat)
    requires n < 5 && Applies(log, n)
    ensures Reports(log, Candidate(log, n))
  {
  }

  /**
   The contributing factors of `buildReadinessRationale`: a factor is listed
   exactly when its threshold is met, with the logged value, and the factors
   come in the fixed order quality, hours, soreness, energy, stress.
   */
  function ReadinessFactors(log: ReadinessLog): (fs: seq<Factor>)
    ensures forall i, j :: 0 <= i < j < |fs| ==> FactorRank(fs[i]) < FactorRank(fs[j])
    ensures forall i :: 0 <= i < |fs| ==> Reports(log, fs[i])
    ensures forall m :: 0 <= m < 5 ==> (Candidate(log, m) in fs <==> Applies(log, m))
  {
    var fs := FactorsFrom(log, 0);
    FactorsFromOrdered(log, 0);
    FactorsFromListed(log, 0);
    FactorsFromComplete(log, 0);
    assert forall i :: 0 <= i < |fs| ==> Reports(log, fs[i]) by {
      forall i | 0 <= i < |fs|
        ensures Reports(log, fs[i])
      {
        assert fs[i] in fs;
        CandidateReports(log, FactorRank(fs[i]));
      }
    }
    assert forall m :: 0 <= m < 5 && Candidate(log, m) in fs ==> Applies(log, m) by {
      forall m | 0 <= m < 5 && Candidate(log, m) in fs
        ensures Applies(log, m)
      {
        assert FactorRank(Candidate(log, m)) == m;
      }
    }
    fs
  }

  function BuildReadinessRationale(log: ReadinessLog): (r: Rationale)
    ensures r.Readiness? && r.score == log.subjectiveScore && r.factors == ReadinessFactors(log)
  {
    Readiness(log.subjectiveScore, ReadinessFactors(log))
  }

  /**
   `checkReadinessAdjustment`: nothing without a log or with a falsy score;
   a score of at most 3 swaps to a recovery session, a score in (3, 4]
   reduces the session, anything higher changes nothing.
   */
  function CheckReadiness(athleteId: string, log: Option<ReadinessLog>): (r: seq<Suggestion>)
    ensures |r| <= 1
    ensures r == [] <==> log.None? || !Truthy(log.value.subjectiveScore) || log.value.subjectiveScore.value > ReadinessLowThreshold
    ensures |r| == 1 ==> r[0].kind == ReadinessAdjustment && r[0].contextType == AthleteContext && r[0].contextId == Some(athleteId)
    ensures |r| == 1 ==> r[0].rationale == BuildReadinessRationale(log.value)
    ensures |r| == 1 && log.value.subjectiveScore.value <= ReadinessVeryLow ==>
      r[0].priority == Critical && r[0].confidence == 90 &&
      r[0].recommendation == SwapToRecovery(log.value.subjectiveScore.value, "recovery", 60, 50)
    ensures |r| == 1 && log.value.subjectiveScore.value > ReadinessVeryLow ==>
      r[0].priority == Medium && r[0].confidence == 75 &&
      r[0].recommendation == ReduceSession(log.value.subjectiveScore.value, 25, 75)
  {
    if log.None? || !Truthy(log.value.subjectiveScore) then []
    else
      var score := log.value.subjectiveScore.value;
      if score <= ReadinessVeryLow then
        [Suggestion(ReadinessAdjustment, Critical, "Very low readiness \U{2014} modify session",
          BuildReadinessRationale(log.value), SwapToRecovery(score, "recovery", 60, 50),
          90, AthleteContext, Some(athleteId))]
      else if score <= ReadinessLowThreshold then
        // The `score <= 3` tests below repeat the first branch's condition, so they always fail here.
        var volumeReduction := if score <= 3.0 then 40 else 25;
        [Suggestion(ReadinessAdjustment, Medium, "Low readiness \U{2014} reduce intensity",
          BuildReadinessRationale(log.value),
          ReduceSession(score, volumeReduction, if score <= 3.0 then 65 else 75),
          75, AthleteContext, Some(athleteId))]
      else []
  }

  // ------------------------------------------------------------------
  // 4. Compliance
  // ------------------------------------------------------------------

  /** An assignment of the plan to the athlete; `assignedDate` as a day number. */
  datatype AssignmentRow = AssignmentRow(status: Status, assignedDate: int)

  function CountStatus(rows: seq<AssignmentRow>, st: Status): nat {
    if |rows| == 0 then 0 else (if rows[0].status == st then 1 else 0) + CountStatus(rows[1..], st)
  }

  /** Pending assignments whose date is before today. */
  function PastDue(rows: seq<AssignmentRow>, today: int): nat {
    if |rows| == 0 then 0
    else (if rows[0].status == Pending && rows[0].assignedDate < today then 1 else 0) + PastDue(rows[1..], today)
  }

  lemma {:induction false} StatusPartition(rows: seq<AssignmentRow>, today: int)
    ensures CountStatus(rows, Completed) + CountStatus(rows, Skipped) + CountStatus(rows, Pending) == |rows|
    ensures PastDue(rows, today) <= CountStatus(rows, Pending)
  {
    if |rows| > 0 {
      StatusPartition(rows[1..], today);
    }
  }

  /** The rate thresholds in whole numbers: below 50% is 2c < t, below 70% is 10c < 7t. */
  lemma RateThresholds(c: nat, t: nat)
    requires t > 0
    ensures c as real / t as real < ComplianceCritical <==> 2 * c < t
    ensures c as real / t as real < ComplianceWarning <==> 10 * c < 7 * t
  {
    var cr := c as real;
    var tr := t as real;
    DivBelow(cr, tr, 0.5);
    DivBelow(cr, tr, 0.7);
    assert cr < 0.5 * tr <==> 2 * c < t;
    assert cr < 0.7 * tr <==> 10 * c < 7 * t;
  }

  lemma DivBelow(c: real, t: real, k: real)
    requires t > 0.0
    ensures c / t < k <==> c < k * t
  {
    var q := c / t;
    assert q * t == c;
    if q < k {
      assert (k - q) * t > 0.0;
    } else {
      assert (q - k) * t >= 0.0;
    }
  }

  lemma RatePercentBounds(completed: nat, total: nat)
    requires 0 < total && completed <= total
    ensures 0 <= Round(completed as real / total as real * 100.0) <= 100
  {
    var rate := completed as real / total as real;
    assert 0.0 <= rate <= 1.0;
    RoundMonotone(0.0, rate * 100.0);
    RoundMonotone(rate * 100.0, 100.0);
    RoundOfInt(0);
    RoundOfInt(100);
  }

  /**
   `checkComplianceAlerts`: with at least three assignments, a completion
   rate below 50% raises a critical alert and one in [50%, 70%) a medium
   check-in; the missed count is skipped plus past-due pending ones.
   */
  function CheckCompliance(athleteId: string, rows: Option<seq<AssignmentRow>>, today: int): (r: seq<Suggestion>)
    ensures |r| <= 1
    ensures rows.None? || |rows.value| < 3 ==> r == []
    ensures |r| == 1 ==> r[0].kind == ComplianceAlert && r[0].contextType == AthleteContext && r[0].contextId == Some(athleteId)
    ensures rows.Some? ==>
      var c := CountStatus(rows.value, Completed);
      var t := |rows.value|;
      && (|r| == 1 && r[0].priority == Critical <==> t >= 3 && 2 * c < t)
      && (|r| == 1 && r[0].priority == Medium <==> t >= 3 && t <= 2 * c && 10 * c < 7 * t)
      && (|r| == 1 ==> r[0].confidence == (if 2 * c < t then 85 else 70))
    ensures |r| == 1 ==>
      var rec := r[0].recommendation;
      var c := CountStatus(rows.value, Completed);
      && (rec.SimplifyProgram? || rec.CheckIn?)
      && rec.sessionsMissed == CountStatus(rows.value, Skipped) + PastDue(rows.value, today)
      && rec.sessionsMissed <= |rows.value| - c
      && 0 <= rec.complianceRate <= 100
      && rec.complianceRate == Round(c as real / |rows.value| as real * 100.0)
  {
    if rows.None? || |rows.value| == 0 then []
    else
      var total := |rows.value|;
      var completed := CountStatus(rows.value, Completed);
      var skipped := CountStatus(rows.value, Skipped);
      var pastDue := PastDue(rows.value, today);
      StatusPartition(rows.value, today);
      var complianceRate := completed as real / total as real;
      var missedRecent := skipped + pastDue;
      RatePercentBounds(completed, total);
      RateThresholds(completed, total);
      if complianceRate < ComplianceCritical && total >= 3 then
        [Suggestion(ComplianceAlert, Critical, "Very low compliance", Narrative,
          SimplifyProgram(Round(complianceRate * 100.0), missedRecent, true, 3),
          85, AthleteContext, Some(athleteId))]
      else if complianceRate < ComplianceWarning && total >= 3 then
        [Suggestion(ComplianceAlert, Medium, "Low compliance \U{2014} check in with athlete", Narrative,
          CheckIn(Round(complianceRate * 100.0), missedRecent),
          70, AthleteContext, Some(athleteId))]
      else []
  }

  // ------------------------------------------------------------------
  // 5. Per-exercise progression
  // ------------------------------------------------------------------

  /** An exercise of the workout (`exercises`: id, name, weight_kg). */
  datatype PlannedExercise = PlannedExercise(id: string, name: string, weightKg: Option<real>)

  /** One of the exercise's latest results, most recent first. */
  datatype PreviousResult = PreviousResult(weightUsedKg: Option<real>, rpe: Option<real>)

  /** An exercise with the fetch of its previous results (None when the fetch failed). */
  datatype ExerciseHistory = ExerciseHistory(exercise: PlannedExercise, previous: Option<seq<PreviousResult>>)

  /** The most recent previous result; exercises without one are skipped, so the default is never read. */
  function Latest(h: ExerciseHistory): PreviousResult {
    if h.previous.Some? && |h.previous.value| > 0 then h.previous.value[0] else PreviousResult(None, None)
  }

  /** The latest result was at RPE in (0, 7] with at least the prescribed, positive weight. */
  predicate Progresses(h: ExerciseHistory) {
    && h.previous.Some? && |h.previous.value| > 0
    && 0.0 < OrZero(Latest(h).rpe) <= 7.0
    && OrZero(Latest(h).weightUsedKg) >= OrZero(h.exercise.weightKg)
    && OrZero(h.exercise.weightKg) > 0.0
  }

  /** The progression for an exercise that progresses: 1.25 kg up to 40 kg, 2.5 kg above. */
  function ProgressionOf(h: ExerciseHistory): (s: Suggestion)
    ensures s.kind == ProgressiveOverload && s.priority == Low
    ensures s.contextType == ExerciseContext && s.contextId == Some(h.exercise.id)
    ensures var p := OrZero(h.exercise.weightKg);
      s.recommendation.ProgressWeight? && s.recommendation.currentWeight == p &&
      s.recommendation.suggestedWeight == p + (if p <= 40.0 then 1.25 else 2.5)
    ensures s.confidence == 85 <==> OrZero(Latest(h).rpe) <= 6.0
    ensures s.confidence == 85 || s.confidence == 70
  {
    var lastRpe := OrZero(Latest(h).rpe);
    var prescribedWeight := OrZero(h.exercise.weightKg);
    var increment := if prescribedWeight <= 40.0 then 1.25 else 2.5;
    Suggestion(ProgressiveOverload, Low, "Progress " + h.exercise.name, Narrative,
      ProgressWeight(h.exercise.id, h.exercise.name, prescribedWeight, prescribedWeight + increment, lastRpe),
      if lastRpe <= 6.0 then 85 else 70, ExerciseContext, Some(h.exercise.id))
  }

  /** The loop body for one exercise. */
  function ProgressionStep(h: ExerciseHistory): seq<Suggestion> {
    if h.previous.None? || |h.previous.value| == 0 then []
    else
      var lastResult := h.previous.value[0];
      var lastRpe := OrZero(lastResult.rpe);
      var lastWeight := OrZero(lastResult.weightUsedKg);
      var prescribedWeight := OrZero(h.exercise.weightKg);
      if lastRpe > 0.0 && lastRpe <= 7.0 && lastWeight >= prescribedWeight && prescribedWeight > 0.0
      then [ProgressionOf(h)]
      else []
  }

  /** `getExerciseProgressionSuggestions`; a failed exercises fetch yields nothing. */
  function ExerciseProgressions(exercises: Option<seq<ExerciseHistory>>): seq<Suggestion> {
    if exercises.None? then [] else FlatMap(exercises.value, ProgressionStep)
  }

  /**
   One progression per exercise that progresses, in exercise order, and
   nothing for the others.
   */
  lemma ExerciseProgressionsSpec(exercises: Option<seq<ExerciseHistory>>)
    ensures exercises.None? ==> ExerciseProgressions(exercises) == []
    ensures exercises.Some? ==> ExerciseProgressions(exercises) == Map(Filter(exercises.value, Progresses), ProgressionOf)
  {
    forall h
      ensures ProgressionStep(h) == if Progresses(h) then [ProgressionOf(h)] else []
    {
    }
    if exercises.Some? {
      FlatMapIsFilterMap(exercises.value, ProgressionStep, Progresses, ProgressionOf);
    }
  }

  lemma ExerciseProgressionsLow(exercises: Option<seq<ExerciseHistory>>)
    ensures |ExerciseProgressions(exercises)| <= if exercises.Some? then |exercises.value| else 0
    ensures forall i :: 0 <= i < |ExerciseProgressions(exercises)| ==> ExerciseProgressions(exercises)[i].priority == Low
  {
    ExerciseProgressionsSpec(exercises);
  }

  // ------------------------------------------------------------------
  // Entry points
  // ------------------------------------------------------------------

  /** The rows each plan-level check reads. */
  datatype PlanData = PlanData(
    assignedWorkouts: Option<seq<string>>,
    overloadCompletions: Option<seq<OverloadCompletion>>,
    recentCompletions: Option<seq<DeloadCompletion>>,
    targets: string -> Option<real>,
    acwrCompletions: Option<seq<AcwrCompletion>>,
    todayLog: Option<ReadinessLog>,
    assignments: Option<seq<AssignmentRow>>)

  function OverloadPart(d: PlanData): seq<Suggestion> {
    CheckOverload(d.assignedWorkouts, d.overloadCompletions)
  }

  function DeloadPart(planId: string, d: PlanData, now: int): seq<Suggestion> {
    CheckDeload(planId, d.recentCompletions, d.targets, d.acwrCompletions, now)
  }

  /** Readiness and compliance run only for a truthy athlete id. */
  function ReadinessPart(athleteId: Option<string>, d: PlanData): seq<Suggestion> {
    if TruthyStr(athleteId) then CheckReadiness(athleteId.value, d.todayLog) else []
  }

  function CompliancePart(athleteId: Option<string>, d: PlanData, today: int): seq<Suggestion> {
    if TruthyStr(athleteId) then CheckCompliance(athleteId.value, d.assignments, today) else []
  }

  function PlanChecks(planId: string, athleteId: Option<string>, d: PlanData, now: int, today: int): seq<Suggestion> {
    OverloadPart(d) + DeloadPart(planId, d, now) + ReadinessPart(athleteId, d) + CompliancePart(athleteId, d, today)
  }

  /**
   `getSuggestionsForPlan`: the four checks' suggestions, sorted stably by
   priority (critical, high, medium, low). The result holds exactly the
   checks' suggestions, and within one priority they keep the order
   overload, deload, readiness, compliance.
   */
  function SuggestionsForPlan(planId: string, athleteId: Option<string>, d: PlanData, now: int, today: int): (r: seq<Suggestion>)
    ensures SortedBy(r, PriorityKey)
    ensures multiset(r) == multiset(PlanChecks(planId, athleteId, d, now, today))
    ensures forall k :: (KeyClass(r, PriorityKey, k) ==
      KeyClass(OverloadPart(d), PriorityKey, k) + KeyClass(DeloadPart(planId, d, now), PriorityKey, k) +
      KeyClass(ReadinessPart(athleteId, d), PriorityKey, k) + KeyClass(CompliancePart(athleteId, d, today), PriorityKey, k))
  {
    var o := OverloadPart(d);
    var l := DeloadPart(planId, d, now);
    var a := ReadinessPart(athleteId, d);
    var c := CompliancePart(athleteId, d, today);
    forall k
      ensures KeyClass(o + l + a + c, PriorityKey, k) ==
        KeyClass(o, PriorityKey, k) + KeyClass(l, PriorityKey, k) + KeyClass(a, PriorityKey, k) + KeyClass(c, PriorityKey, k)
    {
      KeyClassConcat(o + l + a, c, PriorityKey, k);
      KeyClassConcat(o + l, a, PriorityKey, k);
      KeyClassConcat(o, l, PriorityKey, k);
    }
    StableSortBy(o + l + a + c, PriorityKey)
  }

  lemma PlanMember(planId: string, athleteId: Option<string>, d: PlanData, now: int, today: int, s: Suggestion)
    requires s in SuggestionsForPlan(planId, athleteId, d, now, today)
    ensures s in PlanChecks(planId, athleteId, d, now, today)
  {
    assert s in multiset(SuggestionsForPlan(planId, athleteId, d, now, today));
  }

  lemma PlanChecksWithoutAthlete(planId: string, athleteId: Option<string>, d: PlanData, now: int, today: int)
    requires !TruthyStr(athleteId)
    ensures PlanChecks(planId, athleteId, d, now, today) == OverloadPart(d) + DeloadPart(planId, d, now)
  {
    var o := OverloadPart(d);
    var l := DeloadPart(planId, d, now);
    assert ReadinessPart(athleteId, d) == [];
    assert CompliancePart(athleteId, d, today) == [];
    assert o + l + [] + [] == o + l;
  }

  /** Overload and deload never yield readiness or compliance suggestions. */
  lemma PlanWideKinds(planId: string, d: PlanData, now: int, s: Suggestion)
    requires s in OverloadPart(d) + DeloadPart(planId, d, now)
    ensures s.kind != ReadinessAdjustment && s.kind != ComplianceAlert
  {
    CheckOverloadKinds(d.assignedWorkouts, d.overloadCompletions);
    if s !in OverloadPart(d) {
      var l := DeloadPart(planId, d, now);
      assert s in l;
      var i :| 0 <= i < |l| && l[i] == s;
    }
  }

  /** Without an athlete the plan view holds no readiness or compliance suggestion. */
  lemma PlanWithoutAthlete(planId: string, athleteId: Option<string>, d: PlanData, now: int, today: int)
    requires !TruthyStr(athleteId)
    ensures forall s :: s in SuggestionsForPlan(planId, athleteId, d, now, today) ==>
      s.kind != ReadinessAdjustment && s.kind != ComplianceAlert
  {
    PlanChecksWithoutAthlete(planId, athleteId, d, now, today);
    forall s | s in SuggestionsForPlan(planId, athleteId, d, now, today)
      ensures s.kind != ReadinessAdjustment && s.kind != ComplianceAlert
    {
      PlanMember(planId, athleteId, d, now, today, s);
      PlanWideKinds(planId, d, now, s);
    }
  }

  lemma SortedBeforeLow(a: seq<Suggestion>, p: seq<Suggestion>)
    requires |a| <= 1
    requires forall i :: 0 <= i < |p| ==> p[i].priority == Low
    ensures SortedBy(a + p, PriorityKey)
  {
    var r := a + p;
    forall i, j | 0 <= i < j < |r|
      ensures PriorityKey(r[i]) <= PriorityKey(r[j])
    {
      assert r[j] == p[j - |a|];
    }
  }

  /**
   `getSuggestionsForSession`: readiness, then the exercise progressions,
   not sorted. The concatenation is nonetheless in priority order, because
   readiness yields at most one critical or medium suggestion and every
   progression is low.
   */
  function SuggestionsForSession(athleteId: string, log: Option<ReadinessLog>, exercises: Option<seq<ExerciseHistory>>): (r: seq<Suggestion>)
    ensures SortedBy(r, PriorityKey)
    ensures |r| <= 1 + (if exercises.Some? then |exercises.value| else 0)
  {
    var a := CheckReadiness(athleteId, log);
    var p := ExerciseProgressions(exercises);
    ExerciseProgressionsLow(exercises);
    SortedBeforeLow(a, p);
    a + p
  }
}
