/**
 Workout assignments and their completion: the personal-best rules, the
 ordered write steps of completing a workout, batch assignment, and the
 athlete's weekly statistics.
 */
module Assignments {
  import opened Common
  import opened Text
  import opened Records
  import opened IsoWeek

  datatype PbType = WeightPb | RepsPb | TimePb | DistancePb

  // ------------------------------------------------------------------
  // checkPersonalBest
  // ------------------------------------------------------------------

  /**
   Whether `newValue` beats the stored personal best. `existing` is the
   lookup: an error (caught) or no row both mean there is nothing to beat.
   For time lower is better, for every other type higher is better.
   */
  function CheckPersonalBest(pbType: PbType, newValue: real, existing: Result<Option<real>>): (isPb: bool)
    ensures existing.Err? || existing.value.None? ==> isPb
    ensures existing.Ok? && existing.value.Some? && pbType == TimePb ==> (isPb <==> newValue < existing.value.value)
    ensures existing.Ok? && existing.value.Some? && pbType != TimePb ==> (isPb <==> newValue > existing.value.value)
  {
    match existing
    case Err(_) => true
    case Ok(None) => true
    case Ok(Some(best)) => if pbType == TimePb then newValue < best else newValue > best
  }

  /** Equalling a personal best is not a new one, whatever the type. */
  lemma EqualIsNotPb(pbType: PbType, v: real)
    ensures !CheckPersonalBest(pbType, v, Ok(Some(v)))
  {
  }

  /** A value that beats the best also beats anything the best beat (for time: anything slower). */
  lemma PbTransitive(pbType: PbType, a: real, b: real, c: real)
    requires CheckPersonalBest(pbType, a, Ok(Some(b))) && CheckPersonalBest(pbType, b, Ok(Some(c)))
    ensures CheckPersonalBest(pbType, a, Ok(Some(c)))
  {
  }

  // ------------------------------------------------------------------
  // PB type and value in updatePersonalBests
  // ------------------------------------------------------------------

  /** An `ExerciseResultData` submitted with a completion. */
  datatype ResultData = ResultData(
    exerciseId: string,
    setsCompleted: Option<real>,
    repsCompleted: Option<string>,
    weightUsedKg: Option<real>,
    durationSeconds: Option<real>,
    distanceMeters: Option<real>,
    rpe: Option<real>,
    isPb: bool,
    notes: Option<string>)

  predicate Positive(x: Option<real>) {
    Truthy(x) && x.value > 0.0
  }

  /**
   The first field that qualifies picks the type: a positive weight, then any
   non-empty rep text (read with `parseInt`, None for NaN), then a positive
   duration, then a positive distance.
   */
  function PbCandidate(r: ResultData): Option<(PbType, Option<real>)> {
    if Positive(r.weightUsedKg) then Some((WeightPb, r.weightUsedKg))
    else if TruthyStr(r.repsCompleted) then
      Some((RepsPb, match ParseInt(r.repsCompleted.value) case None => None case Some(n) => Some(n as real)))
    else if Positive(r.durationSeconds) then Some((TimePb, r.durationSeconds))
    else if Positive(r.distanceMeters) then Some((DistancePb, r.distanceMeters))
    else None
  }

  datatype PbEntry = PbEntry(pbType: PbType, value: real)

  /** The type and value recorded for a result, or None when the chosen value is 0 or NaN. */
  function PbEntryOf(r: ResultData): (e: Option<PbEntry>)
    ensures e.Some? ==> e.value.value != 0.0
    ensures Positive(r.weightUsedKg) <==> e.Some? && e.value.pbType == WeightPb
    ensures Positive(r.weightUsedKg) ==> e == Some(PbEntry(WeightPb, r.weightUsedKg.value))
    ensures e.Some? && e.value.pbType == RepsPb ==>
      !Positive(r.weightUsedKg) && TruthyStr(r.repsCompleted) && ParseInt(r.repsCompleted.value) == Some(e.value.value.Floor)
    ensures e.Some? && e.value.pbType == TimePb ==>
      !Positive(r.weightUsedKg) && !TruthyStr(r.repsCompleted) && Positive(r.durationSeconds) &&
      e.value.value == r.durationSeconds.value
    ensures e.Some? && e.value.pbType == DistancePb ==>
      !Positive(r.weightUsedKg) && !TruthyStr(r.repsCompleted) && !Positive(r.durationSeconds) &&
      Positive(r.distanceMeters) && e.value.value == r.distanceMeters.value
  {
    match PbCandidate(r)
    case None => None
    case Some((t, v)) => if v.Some? && v.value != 0.0 then Some(PbEntry(t, v.value)) else None
  }

  /**
   Any rep text shadows the later fields: with no positive weight, a result
   that carries reps is recorded as a reps PB or not at all, whatever its
   duration or distance.
   */
  lemma RepsShadowDuration(r: ResultData)
    requires !Positive(r.weightUsedKg) && TruthyStr(r.repsCompleted)
    ensures PbEntryOf(r).None? || PbEntryOf(r).value.pbType == RepsPb
  {
  }

  /** A rep text that is not a number ("AMRAP") records nothing even with a positive duration. */
  lemma NonNumericRepsRecordNothing(r: ResultData)
    requires !Positive(r.weightUsedKg) && r.repsCompleted == Some("AMRAP") && Positive(r.durationSeconds)
    ensures PbEntryOf(r).None?
  {
    ParseIntWord();
  }

  /** With only a duration, the PB is a time PB of that duration. */
  lemma DurationOnly(r: ResultData)
    requires !Positive(r.weightUsedKg) && !TruthyStr(r.repsCompleted) && Positive(r.durationSeconds)
    ensures PbEntryOf(r) == Some(PbEntry(TimePb, r.durationSeconds.value))
  {
  }

  lemma ParseIntWord()
    ensures ParseInt("AMRAP") == None
  {
    assert TrimStart("AMRAP") == "AMRAP";
    assert DigitRun("AMRAP", false) == 0;
  }

  // ------------------------------------------------------------------
  // completeWorkout
  // ------------------------------------------------------------------

  /** A write issued by completeWorkout, in the order issued. */
  datatype Write =
    | InsertCompletion(hasPb: bool)
    | InsertResults(results: seq<ResultData>)
    | MarkCompleted
    | UpsertPb(exerciseName: string, entry: PbEntry, exerciseResultId: string)

  datatype CompleteOutcome = CompleteOutcome(success: bool, completionId: Option<string>, error: Option<string>, writes: seq<Write>)

  predicate IsPb(r: ResultData) {
    r.isPb
  }

  /** `exerciseResults.some(r => r.is_pb)` */
  predicate HasPb(results: seq<ResultData>) {
    exists i :: 0 <= i < |results| && results[i].isPb
  }

  /** The upsert issued for one PB result: skipped when the exercise lookup finds nothing or no value qualifies. */
  function PbStep(names: string -> Option<string>, completionId: string): ResultData -> seq<Write> {
    (r: ResultData) =>
      if names(r.exerciseId).Some? && PbEntryOf(r).Some? then
        [UpsertPb(names(r.exerciseId).value, PbEntryOf(r).value, completionId)]
      else []
  }

  /** `updatePersonalBests`: one upsert per PB result with a known exercise and a recordable value, in order. */
  function PbWrites(pbResults: seq<ResultData>, names: string -> Option<string>, completionId: string): seq<Write> {
    FlatMap(pbResults, PbStep(names, completionId))
  }

  predicate Recordable(names: string -> Option<string>, r: ResultData) {
    names(r.exerciseId).Some? && PbEntryOf(r).Some?
  }

  function RecordableBy(names: string -> Option<string>): ResultData -> bool {
    (r: ResultData) => Recordable(names, r)
  }

  function UpsertOf(names: string -> Option<string>, completionId: string, r: ResultData): Write
    requires Recordable(names, r)
  {
    UpsertPb(names(r.exerciseId).value, PbEntryOf(r).value, completionId)
  }

  /** The PB writes are exactly the recordable PB results, in order, each pointing at the completion. */
  lemma PbWritesSpec(pbResults: seq<ResultData>, names: string -> Option<string>, completionId: string)
    ensures |PbWrites(pbResults, names, completionId)| == Count(pbResults, RecordableBy(names))
    ensures forall i :: 0 <= i < |PbWrites(pbResults, names, completionId)| ==>
      var w := PbWrites(pbResults, names, completionId)[i];
      var r := Filter(pbResults, RecordableBy(names))[i];
      Recordable(names, r) && w == UpsertOf(names, completionId, r)
  {
    var p := RecordableBy(names);
    var f := (r: ResultData) => if Recordable(names, r) then UpsertOf(names, completionId, r) else MarkCompleted;
    FlatMapIsFilterMap(pbResults, PbStep(names, completionId), p, f);
    var kept := Filter(pbResults, p);
    assert forall i :: 0 <= i < |kept| ==> kept[i] in kept && p(kept[i]);
  }

  /**
   `completeWorkout`: insert the completion, insert the results (only when
   there are any), mark the assignment completed, then upsert the personal
   bests. A failing step stops the rest and reports its message; PB upserts
   cannot fail the completion.
   */
  function CompleteWorkout(
    results: seq<ResultData>,
    completion: Result<string>,
    resultsError: Option<string>,
    updateError: Option<string>,
    names: string -> Option<string>): (o: CompleteOutcome)
    ensures |o.writes| > 0 && o.writes[0] == InsertCompletion(HasPb(results))
    ensures o.success <==> completion.Ok? && (|results| == 0 || resultsError.None?) && updateError.None?
    ensures o.success ==> o.completionId == Some(completion.value) && o.error.None?
    ensures !o.success ==> o.completionId.None? && o.error.Some?
    ensures MarkCompleted in o.writes <==> completion.Ok? && (|results| == 0 || resultsError.None?)
    ensures (exists i :: 0 <= i < |o.writes| && o.writes[i].UpsertPb?) ==> o.success
    ensures o.success ==> (o.writes ==
      [InsertCompletion(HasPb(results))]
      + (if |results| > 0 then [InsertResults(results)] else [])
      + [MarkCompleted]
      + PbWrites(Filter(results, IsPb), names, completion.value))
  {
    var first := [InsertCompletion(HasPb(results))];
    match completion
    case Err(e) => CompleteOutcome(false, None, Some(e), first)
    case Ok(id) =>
      var inserted := if |results| > 0 then first + [InsertResults(results)] else first;
      if |results| > 0 && resultsError.Some? then
        CompleteOutcome(false, None, resultsError, inserted)
      else
        var marked := inserted + [MarkCompleted];
        if updateError.Some? then CompleteOutcome(false, None, updateError, marked)
        else
          var pbs := PbWrites(Filter(results, IsPb), names, id);
          PbWritesOnlyUpserts(Filter(results, IsPb), names, id);
          CompleteOutcome(true, Some(id), None, marked + pbs)
  }

  lemma {:induction false} PbWritesOnlyUpserts(pbResults: seq<ResultData>, names: string -> Option<string>, completionId: string)
    ensures forall i :: 0 <= i < |PbWrites(pbResults, names, completionId)| ==> PbWrites(pbResults, names, completionId)[i].UpsertPb?
  {
    if |pbResults| > 0 {
      PbWritesOnlyUpserts(pbResults[1..], names, completionId);
      var head := PbStep(names, completionId)(pbResults[0]);
      var rest := PbWrites(pbResults[1..], names, completionId);
      assert PbWrites(pbResults, names, completionId) == head + rest;
    }
  }

  /** Only results flagged as PBs reach the personal-best table. */
  lemma OnlyFlaggedResultsUpsert(results: seq<ResultData>, names: string -> Option<string>, completionId: string)
    ensures forall i :: 0 <= i < |Filter(Filter(results, IsPb), RecordableBy(names))| ==>
      Filter(Filter(results, IsPb), RecordableBy(names))[i].isPb
  {
    var kept := Filter(Filter(results, IsPb), RecordableBy(names));
    assert forall i :: 0 <= i < |kept| ==> kept[i] in kept;
  }

  // ------------------------------------------------------------------
  // createBatchAssignments
  // ------------------------------------------------------------------

  datatype AssignmentInsert = AssignmentInsert(
    workoutId: string,
    athleteId: string,
    coachId: string,
    assignedDate: string,
    notes: Option<string>,
    status: Status)

  /** The rows inserted by `createBatchAssignments`: one pending row per athlete id, in input order. */
  function BatchAssignments(workoutId: string, athleteIds: seq<string>, coachId: string, assignedDate: string, notes: Option<string>): (rows: seq<AssignmentInsert>)
    ensures |rows| == |athleteIds|
    ensures forall i :: 0 <= i < |rows| ==>
      rows[i] == AssignmentInsert(workoutId, athleteIds[i], coachId, assignedDate, NonEmpty(notes), Pending)
  {
    Map(athleteIds, (a: string) => AssignmentInsert(workoutId, a, coachId, assignedDate, NonEmpty(notes), Pending))
  }

  /** The insert's error becomes a fixed message; otherwise the created rows are returned. */
  function CreateBatchAssignments<T>(created: Result<seq<T>>): (r: Result<seq<T>>)
    ensures created.Err? ==> r == Err("Failed to create workout assignments")
    ensures created.Ok? ==> r == created
  {
    if created.Err? then Err("Failed to create workout assignments") else created
  }

  // ------------------------------------------------------------------
  // getAssignmentStats
  // ------------------------------------------------------------------

  /** Days from today back to this week's Monday (`getDay()`: 0 is Sunday). */
  function MondayOffset(dayOfWeek: int): (diff: int)
    requires 0 <= dayOfWeek < 7
    ensures -6 <= diff <= 0
    ensures (dayOfWeek + diff) % 7 == 1
  {
    if dayOfWeek == 0 then -6 else 1 - dayOfWeek
  }

  function Monday(today: ValidDate): ValidDate {
    AddDays(today, MondayOffset(Weekday(today)))
  }

  /** The computed Monday is a Monday, at most six days back, in today's ISO week. */
  lemma MondaySpec(today: ValidDate)
    ensures Weekday(Monday(today)) == 1
    ensures 0 <= DayNumber(today) - DayNumber(Monday(today)) <= 6
    ensures WeekOfYear(Monday(today)) == WeekOfYear(today)
  {
    var n := DayNumber(today);
    var k := MondayOffset(Weekday(today));
    var m := Monday(today);
    AddDaysNumber(today, k);
    assert DayNumber(m) == n + k;
    MondayResidue(n, k);
    assert Weekday(m) == (n + k + 1) % 7;
    assert DaysSinceMonday(m) == (n + k) % 7;
    assert DaysSinceMonday(today) == n % 7;
    SameWeek(m, today);
  }

  lemma MondayResidue(n: int, k: int)
    requires -6 <= k <= 0 && ((n + 1) % 7 + k) % 7 == 1
    ensures (n + k + 1) % 7 == 1
    ensures (n + k) % 7 == 0
    ensures (n + k) - (n + k) % 7 == n - n % 7
  {
  }

  /** A `workout_assignments` row of the athlete; `assignedDate` as a day number. */
  datatype StatsRow = StatsRow(status: Status, assignedDate: int)

  datatype Stats = Stats(thisWeek: nat, completed: nat, pending: nat, completionRate: int)

  /** Assigned from Monday to today. */
  function InWeek(monday: int, today: int): StatsRow -> bool {
    (a: StatsRow) => monday <= a.assignedDate <= today
  }

  function CompletedInWeek(monday: int, today: int): StatsRow -> bool {
    (a: StatsRow) => monday <= a.assignedDate <= today && a.status == Completed
  }

  /** Pending and assigned on or before today. */
  function PendingDue(today: int): StatsRow -> bool {
    (a: StatsRow) => a.status == Pending && a.assignedDate <= today
  }

  /**
   The three counts: this week's assignments (Monday to today), this week's
   completed ones, and every pending one up to today, with no lower bound.
   */
  function AssignmentStats(rows: seq<StatsRow>, monday: int, today: int): (s: Stats)
    ensures s.thisWeek == Count(rows, InWeek(monday, today))
    ensures s.completed == Count(rows, CompletedInWeek(monday, today))
    ensures s.pending == Count(rows, PendingDue(today))
    ensures s.completed <= s.thisWeek
    ensures s.thisWeek == 0 ==> s.completionRate == 0
    ensures s.thisWeek > 0 ==> s.completionRate == Round((s.completed as real) / (s.thisWeek as real) * 100.0)
    ensures 0 <= s.completionRate <= 100
  {
    var thisWeek := Count(rows, InWeek(monday, today));
    var completed := Count(rows, CompletedInWeek(monday, today));
    var pending := Count(rows, PendingDue(today));
    CountMonotone(rows, CompletedInWeek(monday, today), InWeek(monday, today));
    PercentBounds(completed, thisWeek);
    Stats(thisWeek, completed, pending, if thisWeek > 0 then Round((completed as real) / (thisWeek as real) * 100.0) else 0)
  }

  lemma PercentBounds(part: nat, total: nat)
    requires part <= total
    ensures total > 0 ==> 0 <= Round((part as real) / (total as real) * 100.0) <= 100
  {
    if total > 0 {
      var q := (part as real) / (total as real);
      assert q * (total as real) == part as real;
      assert q <= 1.0;
    }
  }
}
