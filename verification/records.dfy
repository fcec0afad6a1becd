/**
 Row shapes shared by the services (the `exercise_results` table and the
 exercise it points at) and the workload measure they all use: the volume load
 of a result, sets × reps × weight.
 */
module Records {
  import opened Common
  import opened Text
  import opened Grouping

  /** `workout_assignments.status` */
  datatype Status = Pending | Completed | Skipped

  /** The prescribed exercise joined onto a result (`exercises`: name, reps, weight_kg). */
  datatype ExerciseInfo = ExerciseInfo(name: string, reps: Option<string>, weightKg: Option<real>)

  /** One row of `exercise_results`; `reps_completed` is free text. */
  datatype ExerciseResult = ExerciseResult(
    exerciseId: string,
    setsCompleted: Option<real>,
    repsCompleted: Option<string>,
    weightUsedKg: Option<real>,
    rpe: Option<real>,
    isPb: bool,
    exercise: Relation<ExerciseInfo>)

  /** Volume load of one result; a missing field contributes 0 and reps read as `parseInt`'s leading integer. */
  function ResultVolume(r: ExerciseResult): real {
    Volume(OrZero(r.setsCompleted), RepsValue(r.repsCompleted), OrZero(r.weightUsedKg))
  }

  /** `sets * reps * weight` */
  function Volume(sets: real, reps: int, weight: real): real {
    sets * (reps as real) * weight
  }

  lemma VolumeNonNegative(sets: real, reps: int, weight: real)
    requires sets >= 0.0 && reps >= 0 && weight >= 0.0
    ensures Volume(sets, reps, weight) >= 0.0
  {
    assert sets * (reps as real) >= 0.0;
  }

  /** A result with nothing recorded has no volume. */
  lemma ResultVolumeMissing(r: ExerciseResult)
    requires r.setsCompleted.None? || r.weightUsedKg.None? || !TruthyStr(r.repsCompleted)
    ensures ResultVolume(r) == 0.0
  {
    if TruthyStr(r.repsCompleted) {
    } else {
      RepsValueMissing(r.repsCompleted);
    }
  }

  /** A rep text that starts with a number, such as "8-10", contributes that number. */
  lemma ResultVolumeOfRange(r: ExerciseResult, sets: real, n: nat, rest: string, w: real)
    requires r.setsCompleted == Some(sets) && r.weightUsedKg == Some(w)
    requires r.repsCompleted == Some(ShowNat(n) + rest)
    requires |rest| > 0 ==> !IsDigit(rest[0])
    requires n == 0 && |rest| > 0 ==> rest[0] != 'x' && rest[0] != 'X'
    ensures ResultVolume(r) == Volume(sets, n, w)
  {
    RepsValueLeadingNumber(n, rest);
    assert RepsValue(r.repsCompleted) == n;
  }

  predicate NonNegativeInputs(r: ExerciseResult) {
    OrZero(r.setsCompleted) >= 0.0 && OrZero(r.weightUsedKg) >= 0.0 &&
    (r.repsCompleted.Some? ==> '-' !in r.repsCompleted.value)
  }

  lemma ResultVolumeNonNegative(r: ExerciseResult)
    requires NonNegativeInputs(r)
    ensures ResultVolume(r) >= 0.0
  {
    RepsValueNonNegative(r.repsCompleted);
    VolumeNonNegative(OrZero(r.setsCompleted), RepsValue(r.repsCompleted), OrZero(r.weightUsedKg));
  }

  /** Volume load of a session: the sum over its results. */
  function SessionVolume(rs: seq<ExerciseResult>): real {
    SumBy(rs, ResultVolume)
  }

  lemma SessionVolumeNonNegative(rs: seq<ExerciseResult>)
    requires forall i :: 0 <= i < |rs| ==> NonNegativeInputs(rs[i])
    ensures SessionVolume(rs) >= 0.0
  {
    forall i | 0 <= i < |rs|
      ensures ResultVolume(rs[i]) >= 0.0
    {
      ResultVolumeNonNegative(rs[i]);
    }
    SumByNonNegative(rs, ResultVolume);
  }

  /** `Array.isArray(r.exercise) ? r.exercise[0] : r.exercise`, then `?.name || null`. */
  function ExerciseName(r: ExerciseResult): (n: Option<string>)
    ensures n.Some? ==> n.value != ""
    ensures n.Some? <==> Normalize(r.exercise).Some? && Normalize(r.exercise).value.name != ""
    ensures n.Some? ==> n.value == Normalize(r.exercise).value.name
  {
    match Normalize(r.exercise)
    case None => None
    case Some(e) => if e.name != "" then Some(e.name) else None
  }
}
