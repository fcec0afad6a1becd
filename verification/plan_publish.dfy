/**
 Publishing a plan week: every session of the week is assigned to every
 target athlete (the explicit list, merged with a group's members), each
 athlete is notified, and the publication is logged in the plan changelog,
 whose entries bump the plan version for structural changes.

 The queries' answers are inputs: the week's workouts, the group's members,
 the insert's answer and the plan's stored version.
 */
module PlanPublish {
  import opened Common
  import opened Text
  import opened Records

  datatype Target = Target(athleteId: string, loadModifier: Option<real>)

  datatype PublishOptions = PublishOptions(
    planId: string,
    coachId: string,
    blockWeekId: string,
    athletes: seq<Target>,
    groupId: Option<string>)

  datatype WeekWorkout = WeekWorkout(id: string, assignedDate: Option<string>)

  datatype PublishAssignment = PublishAssignment(
    workoutId: string,
    athleteId: string,
    coachId: string,
    assignedDate: string,
    status: Status,
    loadModifier: real,
    source: string,
    planId: string,
    blockWeekId: string)

  datatype PublishResult = PublishResult(workoutsCreated: nat, assignmentsCreated: nat, errors: seq<string>)

  datatype Notification = Notification(userId: string, entityId: string, title: string, message: string)

  /** What one publication did: its result and the rows it wrote. */
  datatype PublishOutcome = PublishOutcome(
    result: PublishResult,
    assignments: seq<PublishAssignment>,
    notifications: seq<Notification>,
    changelog: Option<ChangelogOutcome>)

  const NoSessions := "No sessions found for this week"
  const NoAthletes := "No athletes to assign to"
  const MembersFailed := "Failed to load group members"
  const UnknownError := "Unknown error"

  // ------------------------------------------------------------------
  // Athlete merge
  // ------------------------------------------------------------------

  function TargetId(t: Target): string {
    t.athleteId
  }

  /** A group member not already named explicitly. */
  function NotListed(explicit: seq<Target>): string -> bool {
    (id: string) => id !in Map(explicit, TargetId)
  }

  function GroupTarget(id: string): Target {
    Target(id, Some(1.0))
  }

  /**
   The explicit athletes in order, then the group members whose id is not
   among them, each with modifier 1.0. Only the explicit ids are checked, so
   a member listed twice in the group is added twice.
   */
  function MergeAthletes(explicit: seq<Target>, members: seq<string>): (r: seq<Target>)
    ensures |r| == |explicit| + Count(members, NotListed(explicit))
    ensures r[..|explicit|] == explicit
    ensures r[|explicit|..] == Map(Filter(members, NotListed(explicit)), GroupTarget)
  {
    var added := Map(Filter(members, NotListed(explicit)), GroupTarget);
    assert (explicit + added)[..|explicit|] == explicit;
    assert (explicit + added)[|explicit|..] == added;
    explicit + added
  }

  lemma MergeHasMember(explicit: seq<Target>, members: seq<string>, m: string)
    requires m in members
    ensures m in Map(MergeAthletes(explicit, members), TargetId)
  {
    var r := MergeAthletes(explicit, members);
    var ids := Map(explicit, TargetId);
    var kept := Filter(members, NotListed(explicit));
    if m in ids {
      var i :| 0 <= i < |ids| && ids[i] == m;
      assert r[i] == explicit[i];
      assert Map(r, TargetId)[i] == m;
    } else {
      assert NotListed(explicit)(m);
      assert m in kept;
      var p :| 0 <= p < |kept| && kept[p] == m;
      assert r[|explicit| + p] == r[|explicit|..][p];
      assert Map(r, TargetId)[|explicit| + p] == m;
    }
  }

  lemma MergeAdded(explicit: seq<Target>, members: seq<string>, j: nat)
    requires |explicit| <= j < |MergeAthletes(explicit, members)|
    ensures var t := MergeAthletes(explicit, members)[j];
      t.athleteId in members && t.loadModifier == Some(1.0) && t.athleteId !in Map(explicit, TargetId)
  {
    var r := MergeAthletes(explicit, members);
    var kept := Filter(members, NotListed(explicit));
    var p := j - |explicit|;
    assert r[j] == r[|explicit|..][p];
    assert r[j] == GroupTarget(kept[p]);
    assert kept[p] in kept;
  }

  /**
   The merged list keeps the explicit athletes in front, names every group
   member, adds only group members with modifier 1.0, and a group member never
   repeats an explicit athlete.
   */
  lemma MergeAthletesSpec(explicit: seq<Target>, members: seq<string>)
    ensures forall i :: 0 <= i < |explicit| ==> MergeAthletes(explicit, members)[i] == explicit[i]
    ensures forall m :: m in members ==> m in Map(MergeAthletes(explicit, members), TargetId)
    ensures forall j :: |explicit| <= j < |MergeAthletes(explicit, members)| ==>
      MergeAthletes(explicit, members)[j].athleteId in members && MergeAthletes(explicit, members)[j].loadModifier == Some(1.0)
    ensures forall i, j :: 0 <= i < |explicit| <= j < |MergeAthletes(explicit, members)| ==>
      MergeAthletes(explicit, members)[i].athleteId != MergeAthletes(explicit, members)[j].athleteId
  {
    var r := MergeAthletes(explicit, members);
    forall i | 0 <= i < |explicit|
      ensures r[i] == explicit[i]
    {
      assert r[i] == r[..|explicit|][i];
    }
    forall m | m in members
      ensures m in Map(r, TargetId)
    {
      MergeHasMember(explicit, members, m);
    }
    forall j | |explicit| <= j < |r|
      ensures r[j].athleteId in members && r[j].loadModifier == Some(1.0)
    {
      MergeAdded(explicit, members, j);
    }
    forall i, j | 0 <= i < |explicit| <= j < |r|
      ensures r[i].athleteId != r[j].athleteId
    {
      MergeAdded(explicit, members, j);
      assert r[i] == r[..|explicit|][i];
      assert Map(explicit, TargetId)[i] == r[i].athleteId;
    }
  }

  /** `options.groupId` is truthy: the group's members join the targets. */
  function Targets(options: PublishOptions, members: Result<Option<seq<string>>>): seq<Target> {
    if TruthyStr(options.groupId) && members.Ok? && members.value.Some? then
      MergeAthletes(options.athletes, members.value.value)
    else options.athletes
  }

  // ------------------------------------------------------------------
  // Assignments
  // ------------------------------------------------------------------

  function PublishSource(options: PublishOptions): (src: string)
    ensures src == "group_publish" <==> TruthyStr(options.groupId)
  {
    assert |"plan_publish"| != |"group_publish"|;
    if TruthyStr(options.groupId) then "group_publish" else "plan_publish"
  }

  /** The assignment of one workout to one athlete. */
  function BuildAssignment(options: PublishOptions, today: string): (WeekWorkout, Target) -> PublishAssignment {
    (w: WeekWorkout, t: Target) =>
      PublishAssignment(
        w.id, t.athleteId, options.coachId,
        if TruthyStr(w.assignedDate) then w.assignedDate.value else today,
        Pending,
        t.loadModifier.GetOr(1.0),
        PublishSource(options),
        options.planId, options.blockWeekId)
  }

  function Plural(n: nat, word: string): string {
    word + (if n != 1 then "s" else "")
  }

  function NotificationFor(options: PublishOptions, sessions: nat): Target -> Notification {
    (t: Target) =>
      Notification(t.athleteId, options.planId, "New workouts assigned",
        "Your coach has published " + ShowNat(sessions) + " " + Plural(sessions, "session") + " for you this week.")
  }

  function PublishSummary(sessions: nat, athletes: nat): string {
    "Published week with " + ShowNat(sessions) + " sessions to " + ShowNat(athletes) + " " + Plural(athletes, "athlete")
  }

  function InsertErrors(inserted: Result<Option<nat>>): (errs: seq<string>)
    ensures |errs| <= 1
    ensures forall i :: 0 <= i < |errs| ==> errs[i] != MembersFailed
  {
    if inserted.Err? then
      var e := "Assignment error: " + inserted.message;
      assert e[0] != MembersFailed[0];
      [e]
    else []
  }

  /** The publication proper, once the week has sessions and targets. */
  function Deliver(options: PublishOptions, ws: seq<WeekWorkout>, ts: seq<Target>, memberErrors: seq<string>,
                   inserted: Result<Option<nat>>, version: Option<int>, today: string): (o: PublishOutcome)
    ensures o.assignments == Product(ws, ts, BuildAssignment(options, today))
    ensures o.result.workoutsCreated == |ws|
    ensures o.result.assignmentsCreated == (if inserted.Ok? then inserted.value.GetOr(0) else 0)
    ensures o.result.errors == memberErrors + InsertErrors(inserted)
    ensures |o.notifications| == |ts| && forall i :: 0 <= i < |ts| ==> o.notifications[i].userId == ts[i].athleteId
    ensures o.changelog.Some? && o.changelog.value.entry.changeType == "published"
  {
    var log := AddEntry(ChangeRequest(options.planId, options.coachId, "published", Some(PublishSummary(|ws|, |ts|))), version);
    PublishOutcome(
      PublishResult(|ws|, if inserted.Ok? then inserted.value.GetOr(0) else 0, memberErrors + InsertErrors(inserted)),
      Product(ws, ts, BuildAssignment(options, today)),
      Map(ts, NotificationFor(options, |ws|)),
      Some(log))
  }

  function MemberErrors(options: PublishOptions, members: Result<Option<seq<string>>>): seq<string> {
    if TruthyStr(options.groupId) && members.Err? then [MembersFailed] else []
  }

  /**
   `publishWeek`. `workouts` is the week's sessions (an error is thrown and
   caught, and becomes the only error: its message when the thrown value is
   an `Error` instance, as `thrownIsError` says, else "Unknown error"), `members` the group lookup
   (consulted only with a group id), `inserted` the insert's answer (the
   inserted row count, or an error), `version` the plan's stored version for
   the changelog entry, and `today` the fallback date.
   */
  function PublishWeek(options: PublishOptions, workouts: Result<Option<seq<WeekWorkout>>>, thrownIsError: bool,
                       members: Result<Option<seq<string>>>, inserted: Result<Option<nat>>,
                       version: Option<int>, today: string): (o: PublishOutcome)
    ensures workouts.Err? ==> o == PublishOutcome(PublishResult(0, 0, [if thrownIsError then workouts.message else UnknownError]), [], [], None)
    ensures workouts.Ok? && |workouts.value.GetOr([])| == 0 ==> o == PublishOutcome(PublishResult(0, 0, [NoSessions]), [], [], None)
    ensures workouts.Ok? && |workouts.value.GetOr([])| > 0 && |Targets(options, members)| == 0 ==>
      o == PublishOutcome(PublishResult(0, 0, MemberErrors(options, members) + [NoAthletes]), [], [], None)
    ensures workouts.Ok? && |workouts.value.GetOr([])| > 0 && |Targets(options, members)| > 0 ==>
      o == Deliver(options, workouts.value.value, Targets(options, members), MemberErrors(options, members), inserted, version, today)
  {
    match workouts
    case Err(msg) => PublishOutcome(PublishResult(0, 0, [if thrownIsError then msg else UnknownError]), [], [], None)
    case Ok(found) =>
      var ws := found.GetOr([]);
      if |ws| == 0 then PublishOutcome(PublishResult(0, 0, [NoSessions]), [], [], None)
      else
        var ts := Targets(options, members);
        if |ts| == 0 then PublishOutcome(PublishResult(0, 0, MemberErrors(options, members) + [NoAthletes]), [], [], None)
        else Deliver(options, ws, ts, MemberErrors(options, members), inserted, version, today)
  }

  /**
   Once the week has sessions, the group-lookup failure is reported first
   exactly when a group id was given and the lookup failed; the publication
   then goes on with the explicit athletes.
   */
  lemma PublishMembersFailure(options: PublishOptions, ws: seq<WeekWorkout>, thrownIsError: bool, members: Result<Option<seq<string>>>,
                              inserted: Result<Option<nat>>, version: Option<int>, today: string)
    requires |ws| > 0
    ensures var errs := PublishWeek(options, Ok(Some(ws)), thrownIsError, members, inserted, version, today).result.errors;
      (|errs| > 0 && errs[0] == MembersFailed) <==> TruthyStr(options.groupId) && members.Err?
    ensures members.Err? ==> Targets(options, members) == options.athletes
  {
    var errs := PublishWeek(options, Ok(Some(ws)), thrownIsError, members, inserted, version, today).result.errors;
    if |Targets(options, members)| == 0 {
      assert NoAthletes != MembersFailed;
    } else {
      var ins := InsertErrors(inserted);
      assert |ins| > 0 ==> ins[0] != MembersFailed;
    }
  }

  /**
   Every workout is assigned to every target, workout by workout: the pair
   (workout `i`, athlete `j`) sits at position `i * athletes + j`, pending,
   with the athlete's modifier or 1.0, marked as a group publication exactly
   when a group id was given.
   */
  lemma PublishCrossProduct(options: PublishOptions, ws: seq<WeekWorkout>, thrownIsError: bool, members: Result<Option<seq<string>>>,
                            inserted: Result<Option<nat>>, version: Option<int>, today: string, i: nat, j: nat)
    requires i < |ws| && j < |Targets(options, members)|
    ensures PairAt(PublishWeek(options, Ok(Some(ws)), thrownIsError, members, inserted, version, today).assignments,
                   i * |Targets(options, members)| + j, ws[i], Targets(options, members)[j], options)
  {
    var ts := Targets(options, members);
    PublishedProduct(options, ws, thrownIsError, members, inserted, version, today);
    ProductPair(options, today, ws, ts, i, j);
  }

  lemma ProductPair(options: PublishOptions, today: string, ws: seq<WeekWorkout>, ts: seq<Target>, i: nat, j: nat)
    requires i < |ws| && j < |ts|
    ensures PairAt(Product(ws, ts, BuildAssignment(options, today)), i * |ts| + j, ws[i], ts[j], options)
  {
    var build := BuildAssignment(options, today);
    var p := Product(ws, ts, build);
    var k := i * |ts| + j;
    ProductAt(ws, ts, build, i, j);
    var a := p[k];
    assert a == build(ws[i], ts[j]);
    BuildPair(options, today, ws[i], ts[j]);
    assert a.workoutId == ws[i].id && a.athleteId == ts[j].athleteId && a.status == Pending;
    assert a.loadModifier == ts[j].loadModifier.GetOr(1.0);
    assert a.source == "group_publish" <==> TruthyStr(options.groupId);
    assert PairAt(p, k, ws[i], ts[j], options);
  }

  /** With sessions and targets, the assignments written are the workout-by-target nested loop. */
  lemma PublishedProduct(options: PublishOptions, ws: seq<WeekWorkout>, thrownIsError: bool, members: Result<Option<seq<string>>>,
                         inserted: Result<Option<nat>>, version: Option<int>, today: string)
    requires |ws| > 0 && |Targets(options, members)| > 0
    ensures PublishWeek(options, Ok(Some(ws)), thrownIsError, members, inserted, version, today).assignments
         == Product(ws, Targets(options, members), BuildAssignment(options, today))
  {
    var ts := Targets(options, members);
    var d := Deliver(options, ws, ts, MemberErrors(options, members), inserted, version, today);
    assert PublishWeek(options, Ok(Some(ws)), thrownIsError, members, inserted, version, today) == d;
  }

  /** Position `k` holds the pending assignment of workout `w` to target `t`, carrying its modifier (1.0 when absent) and the publication's source. */
  predicate PairAt(assignments: seq<PublishAssignment>, k: int, w: WeekWorkout, t: Target, options: PublishOptions) {
    && 0 <= k < |assignments|
    && assignments[k].workoutId == w.id
    && assignments[k].athleteId == t.athleteId
    && assignments[k].status == Pending
    && assignments[k].loadModifier == t.loadModifier.GetOr(1.0)
    && (assignments[k].source == "group_publish" <==> TruthyStr(options.groupId))
  }

  lemma BuildPair(options: PublishOptions, today: string, w: WeekWorkout, t: Target)
    ensures var a := BuildAssignment(options, today)(w, t);
      && a.workoutId == w.id && a.athleteId == t.athleteId && a.status == Pending
      && a.loadModifier == t.loadModifier.GetOr(1.0)
      && (a.source == "group_publish" <==> TruthyStr(options.groupId))
  {
  }

  /** A publication with sessions and targets writes one assignment per (workout, athlete) pair. */
  lemma PublishCount(options: PublishOptions, ws: seq<WeekWorkout>, thrownIsError: bool, members: Result<Option<seq<string>>>,
                     inserted: Result<Option<nat>>, version: Option<int>, today: string)
    requires |ws| > 0 && |Targets(options, members)| > 0
    ensures |PublishWeek(options, Ok(Some(ws)), thrownIsError, members, inserted, version, today).assignments| == |ws| * |Targets(options, members)|
    ensures PublishWeek(options, Ok(Some(ws)), thrownIsError, members, inserted, version, today).result.workoutsCreated == |ws|
  {
    ProductLength(ws, Targets(options, members), BuildAssignment(options, today));
  }

  /** Every assignment written pairs a week workout with a target athlete. */
  lemma PublishAssignmentsFromPairs(options: PublishOptions, ws: seq<WeekWorkout>, thrownIsError: bool, members: Result<Option<seq<string>>>,
                                    inserted: Result<Option<nat>>, version: Option<int>, today: string, k: nat)
    requires k < |PublishWeek(options, Ok(Some(ws)), thrownIsError, members, inserted, version, today).assignments|
    ensures var a := PublishWeek(options, Ok(Some(ws)), thrownIsError, members, inserted, version, today).assignments[k];
      (exists w :: w in ws && a.workoutId == w.id) &&
      (exists t :: t in Targets(options, members) && a.athleteId == t.athleteId) &&
      a.coachId == options.coachId && a.planId == options.planId && a.blockWeekId == options.blockWeekId
  {
    var ts := Targets(options, members);
    assert |ws| > 0 && |ts| > 0;
    PublishedProduct(options, ws, thrownIsError, members, inserted, version, today);
    var i, j := ProductSource(ws, ts, BuildAssignment(options, today), k);
    assert ws[i] in ws && ts[j] in ts;
  }

  // ------------------------------------------------------------------
  // isWeekPublished
  // ------------------------------------------------------------------

  /** `isWeekPublished`: false on an error, else whether any assignment exists. */
  function IsWeekPublished(count: Result<Option<nat>>): (b: bool)
    ensures b <==> count.Ok? && count.value.Some? && count.value.value > 0
  {
    match count
    case Err(_) => false
    case Ok(c) => c.GetOr(0) > 0
  }

  // ------------------------------------------------------------------
  // planChangelogService.addEntry
  // ------------------------------------------------------------------

  datatype ChangeRequest = ChangeRequest(planId: string, changedBy: string, changeType: string, summary: Option<string>)

  datatype ChangelogRow = ChangelogRow(planId: string, version: int, changedBy: string, changeType: string, summary: Option<string>)

  /** The changelog row written and, on a bump, the version stored on the plan. */
  datatype ChangelogOutcome = ChangelogOutcome(entry: ChangelogRow, planVersion: Option<int>)

  /** The change types that make a new plan version. */
  predicate Bumps(changeType: string) {
    changeType in ["block_added", "block_removed", "block_reordered", "published"]
  }

  /** `plan?.version || 1`: a missing or zero version counts as 1. */
  function CurrentVersion(version: Option<int>): int {
    if version.Some? && version.value != 0 then version.value else 1
  }

  function AddEntry(req: ChangeRequest, version: Option<int>): ChangelogOutcome {
    var current := CurrentVersion(version);
    var next := if Bumps(req.changeType) then current + 1 else current;
    ChangelogOutcome(
      ChangelogRow(req.planId, next, req.changedBy, req.changeType, NonEmpty(req.summary)),
      if Bumps(req.changeType) then Some(next) else None)
  }

  /**
   A structural change records the next version and stores it on the plan;
   any other change records the current version and leaves the plan alone.
   */
  lemma AddEntryVersion(req: ChangeRequest, version: Option<int>)
    ensures var o := AddEntry(req, version);
      && (Bumps(req.changeType) ==> o.entry.version == CurrentVersion(version) + 1 && o.planVersion == Some(o.entry.version))
      && (!Bumps(req.changeType) ==> o.entry.version == CurrentVersion(version) && o.planVersion.None?)
      && (o.planVersion.Some? <==> Bumps(req.changeType))
  {
  }

  /** Replaying a history of change types from an unset version. */
  function Replay(types: seq<string>): int {
    if |types| == 0 then 1 else AddEntry(ChangeRequest("", "", types[|types| - 1], None), Some(Replay(types[..|types| - 1]))).entry.version
  }

  /** After a history, the plan is at version one plus the number of structural changes in it. */
  lemma {:induction false} ReplayCountsBumps(types: seq<string>)
    ensures Replay(types) == 1 + Count(types, Bumps)
  {
    if |types| > 0 {
      var p := types[..|types| - 1];
      ReplayCountsBumps(p);
      assert types == p + [types[|types| - 1]];
      FilterSnoc(p, types[|types| - 1], Bumps);
    }
  }
}
