/**
 The coach's view of one athlete: compliance metrics over the assignments in a
 date range, and the guard that the history, trend and feedback queries put in
 front of their reads (an active coach-athlete relationship must exist).
 */
module Coaching {
  import opened Common
  import opened Records

  /** One row of the compliance query, already ordered by `assigned_date` ascending. */
  datatype ComplianceRow = ComplianceRow(id: string, status: Status, assignedDate: string)

  datatype Compliance = Compliance(
    totalAssigned: nat,
    totalCompleted: nat,
    complianceRate: int,
    currentStreak: nat,
    missedWorkouts: int)

  predicate IsCompleted(a: ComplianceRow) {
    a.status == Completed
  }

  /** The last `k` rows are all completed. */
  ghost predicate CompletedSuffix(rows: seq<ComplianceRow>, k: nat) {
    k <= |rows| && forall i :: |rows| - k <= i < |rows| ==> IsCompleted(rows[i])
  }

  /**
   The streak loop: walk the rows from the most recent and count completed
   ones until the first that is not completed.
   */
  method CurrentStreak(rows: seq<ComplianceRow>) returns (streak: nat)
    ensures CompletedSuffix(rows, streak)
    ensures streak < |rows| ==> !IsCompleted(rows[|rows| - 1 - streak])
  {
    streak := 0;
    var i := |rows|;
    while i > 0
      invariant 0 <= i <= |rows| && streak == |rows| - i
      invariant CompletedSuffix(rows, streak)
      decreases i
    {
      if IsCompleted(rows[i - 1]) {
        streak := streak + 1;
        i := i - 1;
      } else {
        break;
      }
    }
  }

  /**
   The maximal completed suffix is what the source's loop counts: the leading
   run of completed rows of the reversed list.
   */
  lemma StreakIsLeadingRun(rows: seq<ComplianceRow>, k: nat)
    requires CompletedSuffix(rows, k) && (k < |rows| ==> !IsCompleted(rows[|rows| - 1 - k]))
    ensures k == LeadingRun(Reverse(rows), IsCompleted)
  {
    var r := Reverse(rows);
    assert forall i :: 0 <= i < k ==> r[i] == rows[|rows| - 1 - i];
    LeadingRunUnique(r, IsCompleted, k);
  }

  /** A completed suffix of length `k` contributes `k` completed rows to the count. */
  lemma SuffixAtMostCompleted(rows: seq<ComplianceRow>, k: nat)
    requires CompletedSuffix(rows, k)
    ensures k <= Count(rows, IsCompleted)
  {
    var n := |rows| - k;
    assert rows == rows[..n] + rows[n..];
    FilterConcat(rows[..n], rows[n..], IsCompleted);
    FilterAll(rows[n..], IsCompleted);
  }

  /**
   `calculateCompliance` once the rows are fetched: a query error is passed
   on, a null result counts as no assignments.
   */
  method CalculateCompliance(assignments: Result<Option<seq<ComplianceRow>>>) returns (r: Result<Compliance>)
    ensures assignments.Err? <==> r.Err?
    ensures assignments.Err? ==> r.message == assignments.message
    ensures r.Ok? ==>
      var rows := assignments.value.GetOr([]);
      var c := r.value;
      && c.totalAssigned == |rows|
      && c.totalCompleted == Count(rows, IsCompleted)
      && c.totalCompleted <= c.totalAssigned
      && c.missedWorkouts == c.totalAssigned - c.totalCompleted >= 0
      && (c.totalAssigned == 0 ==> c.complianceRate == 0)
      && (c.totalAssigned > 0 ==> c.complianceRate == Round((c.totalCompleted as real) / (c.totalAssigned as real) * 100.0))
      && 0 <= c.complianceRate <= 100
      && CompletedSuffix(rows, c.currentStreak)
      && (c.currentStreak < |rows| ==> !IsCompleted(rows[|rows| - 1 - c.currentStreak]))
      && c.currentStreak == LeadingRun(Reverse(rows), IsCompleted)
      && c.currentStreak <= c.totalCompleted
      && (|rows| > 0 && !IsCompleted(rows[|rows| - 1]) ==> c.currentStreak == 0)
  {
    if assignments.Err? {
      return Err(assignments.message);
    }
    var rows := assignments.value.GetOr([]);
    var totalAssigned := |rows|;
    var totalCompleted := Count(rows, IsCompleted);
    var rate := if totalAssigned > 0 then (totalCompleted as real) / (totalAssigned as real) * 100.0 else 0.0;
    RateBounds(totalCompleted, totalAssigned);
    var streak := CurrentStreak(rows);
    SuffixAtMostCompleted(rows, streak);
    StreakIsLeadingRun(rows, streak);
    return Ok(Compliance(totalAssigned, totalCompleted, Round(rate), streak, totalAssigned - totalCompleted));
  }

  lemma RateBounds(completed: nat, total: nat)
    requires completed <= total
    ensures total > 0 ==> 0 <= Round((completed as real) / (total as real) * 100.0) <= 100
  {
    if total > 0 {
      var q := (completed as real) / (total as real);
      assert q * (total as real) == completed as real;
      assert q <= 1.0;
    }
  }

  // ------------------------------------------------------------------
  // Relationship guard
  // ------------------------------------------------------------------

  const NoRelationship: string := "No active coach-athlete relationship"
  const UnauthorizedFeedback: string := "Unauthorized to provide feedback on this workout"

  /** The `coach_athletes` row found with status 'active', if exactly one matched (`.single()`). */
  datatype RelationshipRow = RelationshipRow(id: string)

  /** A list query after the guard: its error is thrown, a null result reads as []. */
  function ListResult<T>(rows: Result<Option<seq<T>>>): (r: Result<seq<T>>)
    ensures rows.Err? <==> r.Err?
    ensures r.Err? ==> r.message == rows.message
    ensures rows.Ok? && rows.value.Some? ==> r == Ok(rows.value.value)
    ensures rows.Ok? && rows.value.None? ==> r == Ok([])
  {
    match rows
    case Err(e) => Err(e)
    case Ok(None) => Ok([])
    case Ok(Some(xs)) => Ok(xs)
  }

  /** `getAthleteWorkoutHistory` and `getPerformanceTrends`: no active relationship, no read. */
  function GuardedHistory<T>(relationship: Option<RelationshipRow>, rows: Result<Option<seq<T>>>): (r: Result<seq<T>>)
    ensures relationship.None? ==> r == Err(NoRelationship)
    ensures relationship.Some? ==> r == ListResult(rows)
  {
    if relationship.None? then Err(NoRelationship) else ListResult(rows)
  }

  /**
   `addWorkoutFeedback`: the completion lookup fails first, then the
   relationship check, then the update; the update's row is returned.
   */
  function AddWorkoutFeedback<T>(completion: Result<string>, relationship: Option<RelationshipRow>, update: Result<T>): (r: Result<T>)
    ensures completion.Err? ==> r == Err(completion.message)
    ensures completion.Ok? && relationship.None? ==> r == Err(UnauthorizedFeedback)
    ensures r.Ok? <==> completion.Ok? && relationship.Some? && update.Ok?
    ensures r.Ok? ==> r == update
  {
    match completion
    case Err(e) => Err(e)
    case Ok(_) =>
      if relationship.None? then Err(UnauthorizedFeedback)
      else update
  }
}
