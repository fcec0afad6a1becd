/**
 Training groups: the coach's group list with member counts, the athlete's
 own groups, and assigning a whole program to a group's members, in batches
 of one hundred inserts.

 Dates are day numbers. The program start is the UTC day the start date
 string parses to.
 */
module Groups {
  import opened Common
  import opened Text
  import opened Grouping
  import opened Records

  // ------------------------------------------------------------------
  // getCoachGroups
  // ------------------------------------------------------------------

  /** A joined row (`team`, `sport`, `coach`) reduced to what the views show. */
  datatype Ref = Ref(id: string, name: string)

  datatype GroupRow = GroupRow(id: string, name: string, team: Relation<Ref>, sport: Relation<Ref>)

  datatype GroupView = GroupView(id: string, name: string, team: Option<Ref>, sport: Option<Ref>, memberCount: nat)

  /** One `group_members` row, by its `group_id`. */
  function MemberGroup(groupId: string): string {
    groupId
  }

  function Increment(n: nat, m: string): nat {
    n + 1
  }

  /** The loop `countMap.set(g, (countMap.get(g) || 0) + 1)` over the membership rows. */
  function MemberCounts(members: seq<string>): seq<Entry<string, nat>> {
    FoldByKey(members, MemberGroup, 0, Increment)
  }

  function GroupViewOf(counts: seq<Entry<string, nat>>): GroupRow -> GroupView {
    (g: GroupRow) => GroupView(g.id, g.name, Normalize(g.team), Normalize(g.sport), GetEntry(counts, g.id, 0))
  }

  /**
   `getCoachGroups`: nothing on an error, else every group with its relations
   normalised and its member count; `members` is the membership lookup, whose
   null answer counts as no rows.
   */
  function CoachGroups(groups: Result<Option<seq<GroupRow>>>, members: Option<seq<string>>): seq<GroupView> {
    match groups
    case Err(_) => []
    case Ok(rows) => Map(rows.GetOr([]), GroupViewOf(MemberCounts(members.GetOr([]))))
  }

  lemma {:induction false} FoldIncrement(ms: seq<string>)
    ensures Fold(ms, 0, Increment) == |ms|
  {
    if |ms| > 0 {
      FoldIncrement(ms[..|ms| - 1]);
    }
  }

  /** The counting loop gives each group the number of membership rows that name it, and 0 when none does. */
  lemma MemberCountsSpec(members: seq<string>, id: string)
    ensures GetEntry(MemberCounts(members), id, 0) == Count(members, (m: string) => m == id)
  {
    GetEntryOfFoldByKey(members, MemberGroup, 0, Increment, id);
    FoldIncrement(Members(members, MemberGroup, id));
    MembersAreFilter(members, id);
  }

  lemma {:induction false} MembersAreFilter(members: seq<string>, id: string)
    ensures Members(members, MemberGroup, id) == Filter(members, (m: string) => m == id)
  {
    if |members| > 0 {
      var p := members[..|members| - 1];
      MembersAreFilter(p, id);
      assert members == p + [members[|members| - 1]];
      FilterSnoc(p, members[|members| - 1], (m: string) => m == id);
    }
  }

  /** One view per group row, in order, with normalised relations and the group's count of membership rows. */
  lemma CoachGroupsSpec(rows: seq<GroupRow>, members: Option<seq<string>>)
    ensures |CoachGroups(Ok(Some(rows)), members)| == |rows|
    ensures forall i :: 0 <= i < |rows| ==>
      var v := CoachGroups(Ok(Some(rows)), members)[i];
      && v.id == rows[i].id
      && v.team == Normalize(rows[i].team) && v.sport == Normalize(rows[i].sport)
      && v.memberCount == Count(members.GetOr([]), (m: string) => m == rows[i].id)
  {
    forall i | 0 <= i < |rows|
      ensures CoachGroups(Ok(Some(rows)), members)[i].memberCount == Count(members.GetOr([]), (m: string) => m == rows[i].id)
    {
      MemberCountsSpec(members.GetOr([]), rows[i].id);
    }
  }

  // ------------------------------------------------------------------
  // getAthleteGroups
  // ------------------------------------------------------------------

  datatype AthleteGroupRow = AthleteGroupRow(id: string, name: string, coach: Relation<Ref>, team: Relation<Ref>, sport: Relation<Ref>)

  datatype AthleteGroupView = AthleteGroupView(id: string, name: string, coach: Option<Ref>, team: Option<Ref>, sport: Option<Ref>)

  function ViewOf(g: AthleteGroupRow): AthleteGroupView {
    AthleteGroupView(g.id, g.name, Normalize(g.coach), Normalize(g.team), Normalize(g.sport))
  }

  predicate HasGroup(m: Relation<AthleteGroupRow>) {
    Normalize(m).Some?
  }

  function GroupOf(m: Relation<AthleteGroupRow>): AthleteGroupView {
    match Normalize(m)
    case Some(g) => ViewOf(g)
    case None => AthleteGroupView("", "", None, None, None)
  }

  function MembershipStep(m: Relation<AthleteGroupRow>): seq<AthleteGroupView> {
    if HasGroup(m) then [GroupOf(m)] else []
  }

  /** `getAthleteGroups`: nothing on an error, else each membership's group, normalised, dropping memberships without one. */
  function AthleteGroups(memberships: Result<Option<seq<Relation<AthleteGroupRow>>>>): seq<AthleteGroupView> {
    match memberships
    case Err(_) => []
    case Ok(rows) => FlatMap(rows.GetOr([]), MembershipStep)
  }

  /** The athlete's groups are the memberships that resolve to a group, in order, with their relations normalised. */
  lemma AthleteGroupsSpec(rows: seq<Relation<AthleteGroupRow>>)
    ensures AthleteGroups(Ok(Some(rows))) == Map(Filter(rows, HasGroup), GroupOf)
    ensures |AthleteGroups(Ok(Some(rows)))| == Count(rows, HasGroup)
  {
    FlatMapIsFilterMap(rows, MembershipStep, HasGroup, GroupOf);
  }

  // ------------------------------------------------------------------
  // assignProgramToGroup
  // ------------------------------------------------------------------

  datatype ProgramWeek = ProgramWeek(id: string, weekNumber: int)

  datatype ProgramWorkout = ProgramWorkout(id: string, programWeekId: Option<string>, dayOfWeek: Option<int>)

  datatype GroupAssignment = GroupAssignment(workoutId: string, athleteId: string, coachId: string, assignedDate: int, status: Status)

  datatype GroupAssignResult =
    | Failed(error: string)
    | Assigned(assignmentCount: nat, workoutCount: nat, memberCount: nat)

  const NoWeeks := "No weeks found in program"
  const NoWorkouts := "No workouts found in program"
  const NoMembers := "No members in this group"
  const BatchSize: nat := 100

  /** `weekNumberMap.get(id)`: the lookup map keeps the last week set for an id. */
  function WeekNumberOf(weeks: seq<ProgramWeek>, id: Option<string>): (n: Option<int>)
    ensures n.Some? <==> id.Some? && exists i :: 0 <= i < |weeks| && weeks[i].id == id.value
  {
    if |weeks| == 0 || id.None? then None
    else if weeks[|weeks| - 1].id == id.value then Some(weeks[|weeks| - 1].weekNumber)
    else WeekNumberOf(weeks[..|weeks| - 1], id)
  }

  /** `(weekNumber - 1) * 7 + (day_of_week || 0)`, a missing or zero week number counting as week 1. */
  function DayOffset(weeks: seq<ProgramWeek>, w: ProgramWorkout): int {
    var found := WeekNumberOf(weeks, w.programWeekId);
    var weekNumber := if found.Some? && found.value != 0 then found.value else 1;
    (weekNumber - 1) * 7 + OrZeroInt(w.dayOfWeek)
  }

  function BuildGroupAssignment(weeks: seq<ProgramWeek>, coachId: string, start: int): (ProgramWorkout, string) -> GroupAssignment {
    (w: ProgramWorkout, athlete: string) => GroupAssignment(w.id, athlete, coachId, start + DayOffset(weeks, w), Pending)
  }

  /** The rows to insert: every workout for every member, workout by workout. */
  function GroupAssignments(weeks: seq<ProgramWeek>, workouts: seq<ProgramWorkout>, members: seq<string>,
                            coachId: string, start: int): seq<GroupAssignment> {
    Product(workouts, members, BuildGroupAssignment(weeks, coachId, start))
  }

  /** Every assignment pairs a workout with a member, dated its week's offset plus its weekday from the start. */
  lemma GroupAssignmentAt(weeks: seq<ProgramWeek>, workouts: seq<ProgramWorkout>, members: seq<string>,
                          coachId: string, start: int, i: nat, j: nat)
    requires i < |workouts| && j < |members|
    ensures var rows := GroupAssignments(weeks, workouts, members, coachId, start);
      && |rows| == |workouts| * |members|
      && i * |members| + j < |rows|
      && rows[i * |members| + j] == GroupAssignment(workouts[i].id, members[j], coachId, start + DayOffset(weeks, workouts[i]), Pending)
  {
    ProductLength(workouts, members, BuildGroupAssignment(weeks, coachId, start));
    ProductAt(workouts, members, BuildGroupAssignment(weeks, coachId, start), i, j);
  }

  /** A week's sessions fall within its seven days when their weekdays are 0 to 6. */
  lemma DayOffsetWithinWeek(weeks: seq<ProgramWeek>, w: ProgramWorkout)
    requires w.dayOfWeek.Some? ==> 0 <= w.dayOfWeek.value <= 6
    ensures var found := WeekNumberOf(weeks, w.programWeekId);
      var weekNumber := if found.Some? && found.value != 0 then found.value else 1;
      (weekNumber - 1) * 7 <= DayOffset(weeks, w) < weekNumber * 7
  {
  }

  // ------------------------------------------------------------------
  // Batches
  // ------------------------------------------------------------------

  /** `rows.slice(i, i + 100)` for `i` = 0, 100, 200, ... while `i < |rows|`. */
  function Batches<T>(s: seq<T>): seq<seq<T>>
    decreases |s|
  {
    if |s| == 0 then []
    else if |s| <= BatchSize then [s]
    else [s[..BatchSize]] + Batches(s[BatchSize..])
  }

  /** The end of the batch starting at row `i`. */
  function BatchEnd(i: nat, size: nat): nat {
    if i + BatchSize <= size then i + BatchSize else size
  }

  /**
   The batches cover the rows exactly once and in order; there are
   `ceil(|rows| / 100)` of them, each of 1 to 100 rows, all but the last full.
   */
  lemma {:induction false} BatchesSpec<T>(s: seq<T>)
    ensures Flatten(Batches(s)) == s
    ensures |Batches(s)| == (|s| + BatchSize - 1) / BatchSize
    ensures forall b :: 0 <= b < |Batches(s)| ==> 0 < |Batches(s)[b]| <= BatchSize
    ensures forall b :: 0 <= b < |Batches(s)| - 1 ==> |Batches(s)[b]| == BatchSize
    decreases |s|
  {
    if |s| > BatchSize {
      var rest := Batches(s[BatchSize..]);
      BatchesSpec(s[BatchSize..]);
      assert Batches(s) == [s[..BatchSize]] + rest;
      assert ([s[..BatchSize]] + rest)[1..] == rest;
      assert s == s[..BatchSize] + s[BatchSize..];
      forall b | 0 <= b < |Batches(s)|
        ensures 0 < |Batches(s)[b]| <= BatchSize
        ensures b < |Batches(s)| - 1 ==> |Batches(s)[b]| == BatchSize
      {
        if b > 0 {
          assert Batches(s)[b] == rest[b - 1];
        }
      }
    } else if |s| > 0 {
      assert Flatten([s]) == s + Flatten([s][1..]);
      assert [s][1..] == [];
    }
  }

  /** Batch `b` is rows `100 b` up to `100 b + 100` (or the end). */
  lemma {:induction false} BatchAt<T>(s: seq<T>, b: nat)
    requires b * BatchSize < |s|
    ensures b < |Batches(s)|
    ensures Batches(s)[b] == s[b * BatchSize .. BatchEnd(b * BatchSize, |s|)]
    decreases |s|
  {
    if b > 0 {
      var t := s[BatchSize..];
      BatchAt(t, b - 1);
      assert Batches(s) == [s[..BatchSize]] + Batches(t);
      assert Batches(s)[b] == Batches(t)[b - 1];
      var lo := (b - 1) * BatchSize;
      assert t[lo .. BatchEnd(lo, |t|)] == s[b * BatchSize .. BatchEnd(b * BatchSize, |s|)];
    }
  }

  /**
   The insert loop: `insert(b)` is the error of batch `b`'s insert, if any.
   The first failure stops the loop and is reported by its one-based batch
   number `i / 100 + 1`; the batches before it and the failing one are the
   inserts attempted, and without a failure every batch is.
   */
  method InsertBatches(rows: seq<GroupAssignment>, insert: nat -> Option<string>) returns (failure: Option<string>, attempted: seq<seq<GroupAssignment>>)
    ensures var bs := Batches(rows);
      var b := FirstFailure(insert, 0, |bs|);
      && (b == |bs| ==> failure.None? && attempted == bs)
      && (b < |bs| ==> failure == Some("Failed at batch " + ShowNat(b + 1) + ": " + insert(b).value) && attempted == bs[..b + 1])
  {
    ghost var bs := Batches(rows);
    BatchesSpec(rows);
    var i: nat := 0;
    ghost var n: nat := 0;
    attempted := [];
    while i < |rows|
      invariant i == n * BatchSize
      invariant n <= |bs|
      invariant i < |rows| ==> n < |bs|
      invariant i >= |rows| ==> n == |bs|
      invariant attempted == bs[..n]
      invariant forall k :: 0 <= k < n ==> insert(k).None?
      decreases |rows| - i
    {
      BatchAt(rows, n);
      var batch := rows[i .. BatchEnd(i, |rows|)];
      attempted := attempted + [batch];
      assert attempted == bs[..n + 1];
      var err := insert(i / BatchSize);
      assert i / BatchSize == n;
      if err.Some? {
        FirstFailureAt(insert, 0, n, |bs|);
        failure := Some("Failed at batch " + ShowNat(i / BatchSize + 1) + ": " + err.value);
        return;
      }
      i := i + BatchSize;
      n := n + 1;
    }
    FirstFailureNone(insert, 0, |bs|);
    failure := None;
  }

  /**
   `assignProgramToGroup`. The three lookups are inputs (a null answer and an
   empty one are alike), `start` is the program start day and `insert(b)` the
   error of batch `b`'s insert, if any. The checks run in order: weeks, then
   workouts, then members.
   */
  method AssignProgramToGroup(weeks: Option<seq<ProgramWeek>>, workouts: Option<seq<ProgramWorkout>>, members: Option<seq<string>>,
                              coachId: string, start: int, insert: nat -> Option<string>)
    returns (r: GroupAssignResult, attempted: seq<seq<GroupAssignment>>)
    ensures |weeks.GetOr([])| == 0 ==> r == Failed(NoWeeks) && attempted == []
    ensures |weeks.GetOr([])| > 0 && |workouts.GetOr([])| == 0 ==> r == Failed(NoWorkouts) && attempted == []
    ensures |weeks.GetOr([])| > 0 && |workouts.GetOr([])| > 0 && |members.GetOr([])| == 0 ==> r == Failed(NoMembers) && attempted == []
    ensures |weeks.GetOr([])| > 0 && |workouts.GetOr([])| > 0 && |members.GetOr([])| > 0 ==>
      var rows := GroupAssignments(weeks.value, workouts.value, members.value, coachId, start);
      var bs := Batches(rows);
      var b := FirstFailure(insert, 0, |bs|);
      && (b == |bs| ==> r == Assigned(|rows|, |workouts.value|, |members.value|) && attempted == bs)
      && (b < |bs| ==> r == Failed("Failed at batch " + ShowNat(b + 1) + ": " + insert(b).value) && attempted == bs[..b + 1])
  {
    if |weeks.GetOr([])| == 0 {
      return Failed(NoWeeks), [];
    }
    if |workouts.GetOr([])| == 0 {
      return Failed(NoWorkouts), [];
    }
    if |members.GetOr([])| == 0 {
      return Failed(NoMembers), [];
    }
    var rows := GroupAssignments(weeks.value, workouts.value, members.value, coachId, start);
    var failure;
    failure, attempted := InsertBatches(rows, insert);
    if failure.Some? {
      r := Failed(failure.value);
    } else {
      r := Assigned(|rows|, |workouts.value|, |members.value|);
    }
  }

  /** A successful assignment inserts every row once, in order, and reports workouts × members rows. */
  lemma AssignedInsertsAll(weeks: seq<ProgramWeek>, workouts: seq<ProgramWorkout>, members: seq<string>,
                           coachId: string, start: int, insert: nat -> Option<string>)
    requires forall b: nat :: insert(b).None?
    ensures var rows := GroupAssignments(weeks, workouts, members, coachId, start);
      && Flatten(Batches(rows)) == rows
      && |rows| == |workouts| * |members|
      && FirstFailure(insert, 0, |Batches(rows)|) == |Batches(rows)|
  {
    var rows := GroupAssignments(weeks, workouts, members, coachId, start);
    BatchesSpec(rows);
    ProductLength(workouts, members, BuildGroupAssignment(weeks, coachId, start));
    FirstFailureNone(insert, 0, |Batches(rows)|);
  }

  // ------------------------------------------------------------------
  // The assigned date as written
  // ------------------------------------------------------------------

  /** Milliseconds in a day. */
  const Day: int := 1000 * 60 * 60 * 24

  /**
   The source parses the start date as UTC midnight, moves the local calendar
   date forward by the offset (keeping the local time of day), and takes the
   UTC date of the result. `zone(d)` is the zone's offset from UTC in
   milliseconds in effect on day `d`.
   */
  function AssignedDateAsWritten(start: int, offset: int, zone: int -> int): int {
    (start * Day + zone(start) + offset * Day - zone(start + offset)) / Day
  }

  /** Where the offset does not change between the two days, the written date is the intended one. */
  lemma AsWrittenSteadyZone(start: int, offset: int, zone: int -> int)
    requires zone(start) == zone(start + offset)
    ensures AssignedDateAsWritten(start, offset, zone) == start + offset
  {
    assert start * Day + zone(start) + offset * Day - zone(start + offset) == (start + offset) * Day;
  }

  /** A zone one hour ahead of UTC that moves to two hours ahead on day 100. */
  function SummerTime(d: int): int {
    if d >= 100 then 2 * 60 * 60 * 1000 else 60 * 60 * 1000
  }

  /**
   A program starting on day 95 whose week-2 Monday session (offset 7) falls
   after the clocks go forward: the written date is day 101, a day early,
   while the model's date is day 102.
   */
  lemma SummerTimeShiftsDate()
    ensures AssignedDateAsWritten(95, 7, SummerTime) == 101
    ensures GroupAssignments([ProgramWeek("w2", 2)], [ProgramWorkout("s", Some("w2"), Some(0))], ["a"], "c", 95)
      == [GroupAssignment("s", "a", "c", 102, Pending)]
  {
    assert 95 * Day + SummerTime(95) + 7 * Day - SummerTime(102) == 102 * Day - 60 * 60 * 1000;
    var ws := [ProgramWorkout("s", Some("w2"), Some(0))];
    assert DayOffset([ProgramWeek("w2", 2)], ws[0]) == 7;
    assert ws[1..] == [];
  }
}
