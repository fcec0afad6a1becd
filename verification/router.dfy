/**
 The navigation guard run before every route change: a route's meta flags
 against the signed-in user's state, checked in a fixed order, with the
 first unmet requirement deciding where the user is sent.
 */
module Router {
  import opened Common
  import opened Auth

  /** The route meta flags the guard reads; an absent flag is false. */
  datatype Meta = Meta(requiresAuth: bool, requiresGuest: bool, requiresCoach: bool, requiresAthlete: bool)

  /** Where navigation goes: on to the route, to login with the path to come back to, or to the feed. */
  datatype Decision = Proceed | ToLogin(redirect: string) | ToFeed

  /** `beforeEach`, once the auth store has finished loading. */
  function Guard(meta: Meta, st: AuthState, fullPath: string): (d: Decision)
    ensures d.Proceed? <==> Allowed(meta, st)
  {
    if meta.requiresAuth && !IsAuthenticated(st) then ToLogin(fullPath)
    else if meta.requiresGuest && IsAuthenticated(st) then ToFeed
    else if meta.requiresCoach && !IsCoach(st) then ToFeed
    else if meta.requiresAthlete && !IsAthlete(st) then ToFeed
    else Proceed
  }

  /** Every requirement the route states is met. */
  predicate Allowed(meta: Meta, st: AuthState) {
    && (meta.requiresAuth ==> IsAuthenticated(st))
    && (meta.requiresGuest ==> !IsAuthenticated(st))
    && (meta.requiresCoach ==> IsCoach(st))
    && (meta.requiresAthlete ==> IsAthlete(st))
  }

  // ------------------------------------------------------------------
  // The guard as an ordered rule list
  // ------------------------------------------------------------------

  /** One check: whether it fails, and where a failure sends the user. */
  datatype Rule = Rule(fails: bool, target: Decision)

  /** The four checks in the order the guard runs them. */
  function Rules(meta: Meta, st: AuthState, fullPath: string): seq<Rule> {
    [ Rule(meta.requiresAuth && !IsAuthenticated(st), ToLogin(fullPath)),
      Rule(meta.requiresGuest && IsAuthenticated(st), ToFeed),
      Rule(meta.requiresCoach && !IsCoach(st), ToFeed),
      Rule(meta.requiresAthlete && !IsAthlete(st), ToFeed) ]
  }

  function Fails(): Rule -> bool {
    (r: Rule) => r.fails
  }

  /** The target of the first failing rule, or `Proceed` when none fails. */
  function FirstFailing(rules: seq<Rule>): Decision {
    var k := FindIndex(rules, Fails());
    if k == -1 then Proceed else rules[k].target
  }

  /** The guard is the first-failure-wins reading of its four ordered checks. */
  lemma GuardIsFirstFailing(meta: Meta, st: AuthState, fullPath: string)
    ensures Guard(meta, st, fullPath) == FirstFailing(Rules(meta, st, fullPath))
  {
    var rs := Rules(meta, st, fullPath);
    assert Fails()(rs[0]) == rs[0].fails;
    assert Fails()(rs[1]) == rs[1].fails;
    assert Fails()(rs[2]) == rs[2].fails;
    assert Fails()(rs[3]) == rs[3].fails;
  }

  /**
   A route that needs a session sends a signed-out visitor to login with
   the full path as the redirect, whatever else the route requires.
   */
  lemma SignedOutToLogin(meta: Meta, st: AuthState, fullPath: string)
    requires meta.requiresAuth && !IsAuthenticated(st)
    ensures Guard(meta, st, fullPath) == ToLogin(fullPath)
  {
  }

  /** Login is chosen only for a signed-out visitor on a route that needs a session, and always with the full path. */
  lemma LoginOnlyWhenSignedOut(meta: Meta, st: AuthState, fullPath: string)
    ensures Guard(meta, st, fullPath).ToLogin? <==> meta.requiresAuth && !IsAuthenticated(st)
    ensures Guard(meta, st, fullPath).ToLogin? ==> Guard(meta, st, fullPath).redirect == fullPath
  {
  }

  /** The feed is chosen exactly when the session check passes and a guest, coach or athlete check fails. */
  lemma FeedWhenRoleCheckFails(meta: Meta, st: AuthState, fullPath: string)
    ensures Guard(meta, st, fullPath) == ToFeed <==>
      && !(meta.requiresAuth && !IsAuthenticated(st))
      && ((meta.requiresGuest && IsAuthenticated(st)) || (meta.requiresCoach && !IsCoach(st)) || (meta.requiresAthlete && !IsAthlete(st)))
  {
  }

  /** No user passes a route that requires both the coach and the athlete type, since a profile has one type. */
  lemma CoachAndAthleteUnreachable(meta: Meta, st: AuthState, fullPath: string)
    requires meta.requiresCoach && meta.requiresAthlete
    ensures Guard(meta, st, fullPath) != Proceed
  {
    RolesExclusive(st);
  }

  // ------------------------------------------------------------------
  // The route table's flags
  // ------------------------------------------------------------------

  const Guest := Meta(false, true, false, false)
  const Member := Meta(true, false, false, false)
  const CoachOnly := Meta(true, false, true, false)
  const AthleteOnly := Meta(true, false, false, true)
  const Open := Meta(false, false, false, false)

  datatype Route = Route(name: string, meta: Meta)

  /** The named routes and their flags. */
  const RouteTable: seq<Route> := [
    Route("login", Guest), Route("signup", Guest),
    Route("feed", Member), Route("explore", Member), Route("create", Member), Route("notifications", Member),
    Route("my-profile", Member), Route("profile", Member), Route("settings", Member),
    Route("athletes", CoachOnly), Route("programs", CoachOnly), Route("new-program", CoachOnly),
    Route("program-detail", CoachOnly), Route("edit-program", CoachOnly), Route("workouts", CoachOnly),
    Route("workout-builder", CoachOnly),
    Route("athlete-workouts", AthleteOnly), Route("athlete-workout-detail", AthleteOnly), Route("progress", AthleteOnly),
    Route("post", Member),
    Route("not-found", Open)]

  /** The kinds of meta the route table uses: guest pages, member pages, coach pages, athlete pages and the catch-all. */
  predicate TableMeta(meta: Meta) {
    meta == Guest || meta == Member || meta == CoachOnly || meta == AthleteOnly || meta == Open
  }

  /** Every route of the table carries one of those five kinds of meta; none requires both a session and a guest. */
  lemma RouteTableMetas()
    ensures forall i :: 0 <= i < |RouteTable| ==> TableMeta(RouteTable[i].meta)
    ensures forall i :: 0 <= i < |RouteTable| ==> !(RouteTable[i].meta.requiresAuth && RouteTable[i].meta.requiresGuest)
  {
  }

  /**
   For the table's routes, a signed-in coach reaches every member and coach
   page and no athlete or guest page, and a signed-out visitor reaches only
   the guest pages and the catch-all.
   */
  lemma TableAccess(meta: Meta, st: AuthState, fullPath: string)
    requires TableMeta(meta)
    ensures IsCoach(st) && IsAuthenticated(st) ==>
      (Guard(meta, st, fullPath) == Proceed <==> meta == Member || meta == CoachOnly || meta == Open)
    ensures !IsAuthenticated(st) ==>
      (Guard(meta, st, fullPath) == Proceed <==> meta == Guest || meta == Open)
  {
    RolesExclusive(st);
  }
}
