/**
 The exercise library's filter dropdowns and search filters: the distinct
 equipment and muscle-group values across the library, sorted, and which
 library rows a search's filters admit.
 */
module ExerciseLibrary {
  import opened Common
  import opened Text

  // ------------------------------------------------------------------
  // Option lists
  // ------------------------------------------------------------------

  /** The values of every row's array, row after row; a null array contributes nothing. */
  function AllValues(rows: seq<Option<seq<string>>>): seq<string> {
    if |rows| == 0 then []
    else rows[0].GetOr([]) + AllValues(rows[1..])
  }

  /** A row whose array holds `y`. */
  predicate ListedIn(rows: seq<Option<seq<string>>>, y: string) {
    exists i :: 0 <= i < |rows| && rows[i].Some? && y in rows[i].value
  }

  lemma {:induction false} AllValuesMembers(rows: seq<Option<seq<string>>>)
    ensures forall y :: y in AllValues(rows) <==> ListedIn(rows, y)
  {
    if |rows| > 0 {
      AllValuesMembers(rows[1..]);
      forall y
        ensures y in AllValues(rows) <==> ListedIn(rows, y)
      {
        if ListedIn(rows[1..], y) {
          var i :| 0 <= i < |rows[1..]| && rows[1..][i].Some? && y in rows[1..][i].value;
          assert rows[i + 1] == rows[1..][i];
        }
        if ListedIn(rows, y) && !(rows[0].Some? && y in rows[0].value) {
          var i :| 0 <= i < |rows| && rows[i].Some? && y in rows[i].value;
          assert rows[1..][i - 1] == rows[i];
        }
      }
    }
  }

  /**
   `getEquipmentOptions` and `getMuscleGroupOptions` over the fetched array
   column: every value once, in the default sort order; a failed fetch gives
   no options.
   */
  function Options(fetched: Result<Option<seq<Option<seq<string>>>>>): seq<string> {
    match fetched
    case Err(_) => []
    case Ok(rows) => SortDistinct(AllValues(rows.GetOr([])))
  }

  /**
   The options are strictly increasing (so no value twice), and a value is
   an option exactly when some row's array holds it. These two facts pin
   the list down: any list with them is the options list.
   */
  lemma OptionsSpec(rows: seq<Option<seq<string>>>)
    ensures StrictlySorted(Options(Ok(Some(rows))))
    ensures forall y :: y in Options(Ok(Some(rows))) <==> ListedIn(rows, y)
    ensures forall other :: StrictlySorted(other) && (forall y :: y in other <==> ListedIn(rows, y)) ==>
      other == Options(Ok(Some(rows)))
  {
    AllValuesMembers(rows);
    var r := Options(Ok(Some(rows)));
    forall other | StrictlySorted(other) && (forall y :: y in other <==> ListedIn(rows, y))
      ensures other == r
    {
      StrictlySortedUnique(other, r);
    }
  }

  /** No value appears twice among the options. */
  lemma OptionsDistinct(fetched: Result<Option<seq<Option<seq<string>>>>>)
    ensures forall i, j :: 0 <= i < j < |Options(fetched)| ==> Options(fetched)[i] != Options(fetched)[j]
  {
    var r := Options(fetched);
    forall i, j | 0 <= i < j < |r|
      ensures r[i] != r[j]
    {
      assert StrLess(r[i], r[j]);
      StrLessIrreflexive(r[i]);
    }
  }

  /** A failed fetch, or a null answer, yields no options. */
  lemma OptionsEmpty(fetched: Result<Option<seq<Option<seq<string>>>>>)
    requires fetched.Err? || fetched == Ok(None)
    ensures Options(fetched) == []
  {
  }

  // ------------------------------------------------------------------
  // Search filters
  // ------------------------------------------------------------------

  /** `coachId`: left undefined, null, or a string. */
  datatype CoachFilter = Unset | NullCoach | CoachId(id: string)

  /** Which owners' exercises a search admits. */
  datatype Scope = AnyOwner | SystemOnly | SystemAndOwn(coachId: string)

  /** An undefined coach filter applies none; a truthy id adds that coach's own exercises; null or "" keeps only system ones. */
  function ScopeOf(f: CoachFilter): (s: Scope)
    ensures f.Unset? <==> s.AnyOwner?
    ensures s.SystemAndOwn? <==> f.CoachId? && f.id != ""
    ensures s.SystemAndOwn? ==> s.coachId == f.id
  {
    match f
    case Unset => AnyOwner
    case NullCoach => SystemOnly
    case CoachId(id) => if id != "" then SystemAndOwn(id) else SystemOnly
  }

  /** A system exercise has no coach; a custom one has its coach's id. */
  predicate InScope(s: Scope, owner: Option<string>) {
    match s
    case AnyOwner => true
    case SystemOnly => owner.None?
    case SystemAndOwn(c) => owner.None? || owner == Some(c)
  }

  datatype Exercise = Exercise(
    id: string,
    name: string,
    category: string,
    movementPattern: Option<string>,
    equipment: seq<string>,
    muscleGroups: seq<string>,
    coachId: Option<string>)

  /** The search filters other than the name search; an empty string means "any". */
  datatype Filters = Filters(
    category: Option<string>,
    movementPattern: Option<string>,
    equipment: Option<string>,
    muscleGroup: Option<string>,
    coach: CoachFilter)

  /** A library row passes every filter the search sets. */
  predicate Admits(f: Filters, e: Exercise) {
    && (TruthyStr(f.category) ==> e.category == f.category.value)
    && (TruthyStr(f.movementPattern) ==> e.movementPattern == f.movementPattern)
    && (TruthyStr(f.equipment) ==> f.equipment.value in e.equipment)
    && (TruthyStr(f.muscleGroup) ==> f.muscleGroup.value in e.muscleGroups)
    && InScope(ScopeOf(f.coach), e.coachId)
  }

  /**
   The coach part of a search: with no coach filter every row's owner is
   admitted; with a coach's id, system rows and that coach's rows and no
   other coach's; with null or "", system rows only.
   */
  lemma CoachScopeSpec(f: CoachFilter, owner: Option<string>)
    ensures f.Unset? ==> InScope(ScopeOf(f), owner)
    ensures f.CoachId? && f.id != "" ==> (InScope(ScopeOf(f), owner) <==> owner.None? || owner == Some(f.id))
    ensures f.NullCoach? || f == CoachId("") ==> (InScope(ScopeOf(f), owner) <==> owner.None?)
  {
  }

  /** A search that sets no filter admits the whole library, custom exercises of every coach included. */
  lemma NoFiltersAdmitAll(e: Exercise)
    ensures Admits(Filters(None, None, None, None, Unset), e)
    ensures Admits(Filters(Some(""), Some(""), Some(""), Some(""), Unset), e)
  {
  }

  /** Narrowing the coach filter from none to a coach's own, and from that to system only, only removes rows. */
  lemma ScopesNested(coach: string, owner: Option<string>)
    ensures InScope(SystemOnly, owner) ==> InScope(ScopeOf(CoachId(coach)), owner)
    ensures InScope(ScopeOf(CoachId(coach)), owner) ==> InScope(ScopeOf(Unset), owner)
  {
  }
}
