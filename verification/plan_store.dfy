/**
 The plan editor's store: the coach's plan list, the open plan with its
 blocks and weeks, and the selected block and week. Getters are functions of
 the state and actions are state transitions; a service call's answer is an
 input (`Err` carries the message of the error it threw).
 */
module PlanStore {
  import opened Common

  datatype PlanSummary = PlanSummary(id: string, status: string)

  datatype Week = Week(id: string, weekNumber: int)

  datatype Block = Block(id: string, name: string, blockType: Option<string>, weeks: seq<Week>)

  datatype ActivePlan = ActivePlan(id: string, coachId: string, blocks: seq<Block>)

  datatype State = State(
    plans: seq<PlanSummary>,
    activePlan: Option<ActivePlan>,
    selectedBlockId: Option<string>,
    selectedWeekId: Option<string>,
    loading: bool,
    error: Option<string>)

  /** A week as the flat week list shows it, with its block's name and type. */
  datatype PlanWeek = PlanWeek(week: Week, blockName: string, blockType: Option<string>)

  const Initial := State([], None, None, None, false, None)

  // ------------------------------------------------------------------
  // Getters
  // ------------------------------------------------------------------

  function BlockIs(id: string): Block -> bool {
    (b: Block) => b.id == id
  }

  function WeekIs(id: string): Week -> bool {
    (w: Week) => w.id == id
  }

  function PlanWeekIs(id: string): PlanWeek -> bool {
    (w: PlanWeek) => w.week.id == id
  }

  predicate HasWeek(b: Block, weekId: string) {
    exists i :: 0 <= i < |b.weeks| && b.weeks[i].id == weekId
  }

  function ContainsWeek(weekId: string): Block -> bool {
    (b: Block) => HasWeek(b, weekId)
  }

  /** `selectedBlock`: the open plan's first block with the selected id. */
  function SelectedBlock(st: State): (r: Option<Block>)
    ensures r.Some? ==> st.activePlan.Some? && r.value in st.activePlan.value.blocks && Some(r.value.id) == st.selectedBlockId
    ensures st.activePlan.None? || !TruthyStr(st.selectedBlockId) ==> r.None?
  {
    if st.activePlan.None? || !TruthyStr(st.selectedBlockId) then None
    else Find(st.activePlan.value.blocks, BlockIs(st.selectedBlockId.value))
  }

  /** `selectedWeek`: the selected block's first week with the selected id. */
  function SelectedWeek(st: State): (r: Option<Week>)
    ensures r.Some? ==> SelectedBlock(st).Some? && r.value in SelectedBlock(st).value.weeks && Some(r.value.id) == st.selectedWeekId
  {
    var b := SelectedBlock(st);
    if b.None? || !TruthyStr(st.selectedWeekId) then None
    else Find(b.value.weeks, WeekIs(st.selectedWeekId.value))
  }

  function Annotate(b: Block): Week -> PlanWeek {
    (w: Week) => PlanWeek(w, b.name, b.blockType)
  }

  function BlockWeeks(b: Block): seq<PlanWeek> {
    Map(b.weeks, Annotate(b))
  }

  /** The weeks of every block, block after block. */
  function Weeks(blocks: seq<Block>): seq<PlanWeek> {
    FlatMap(blocks, BlockWeeks)
  }

  /** `allWeeks` */
  function AllWeeks(st: State): seq<PlanWeek> {
    if st.activePlan.None? then [] else Weeks(st.activePlan.value.blocks)
  }

  /** Number of weeks in the first `n` blocks: where block `n`'s weeks start in the flat list. */
  function WeeksBefore(blocks: seq<Block>, n: nat): nat
    requires n <= |blocks|
  {
    if n == 0 then 0 else |blocks[0].weeks| + WeeksBefore(blocks[1..], n - 1)
  }

  lemma {:induction false} WeeksLength(blocks: seq<Block>)
    ensures |Weeks(blocks)| == WeeksBefore(blocks, |blocks|)
  {
    if |blocks| > 0 {
      WeeksLength(blocks[1..]);
    }
  }

  /** Week `wi` of block `bi` sits, annotated with that block, after the weeks of the blocks before it. */
  lemma {:induction false} WeeksAt(blocks: seq<Block>, bi: nat, wi: nat)
    requires bi < |blocks| && wi < |blocks[bi].weeks|
    ensures WeeksBefore(blocks, bi) + wi < |Weeks(blocks)|
    ensures Weeks(blocks)[WeeksBefore(blocks, bi) + wi] == PlanWeek(blocks[bi].weeks[wi], blocks[bi].name, blocks[bi].blockType)
  {
    var head := BlockWeeks(blocks[0]);
    var rest := Weeks(blocks[1..]);
    assert Weeks(blocks) == head + rest;
    if bi > 0 {
      WeeksAt(blocks[1..], bi - 1, wi);
      assert (head + rest)[|head| + WeeksBefore(blocks[1..], bi - 1) + wi] == rest[WeeksBefore(blocks[1..], bi - 1) + wi];
    } else {
      assert (head + rest)[wi] == head[wi];
    }
  }

  /** Every entry of the flat list is some block's week, annotated with that block. */
  lemma {:induction false} WeeksSource(blocks: seq<Block>, k: nat) returns (bi: nat, wi: nat)
    requires k < |Weeks(blocks)|
    ensures bi < |blocks| && wi < |blocks[bi].weeks|
    ensures k == WeeksBefore(blocks, bi) + wi
    ensures Weeks(blocks)[k] == PlanWeek(blocks[bi].weeks[wi], blocks[bi].name, blocks[bi].blockType)
  {
    var head := BlockWeeks(blocks[0]);
    var rest := Weeks(blocks[1..]);
    assert Weeks(blocks) == head + rest;
    if k < |head| {
      bi, wi := 0, k;
      assert (head + rest)[k] == head[k];
    } else {
      var b', w' := WeeksSource(blocks[1..], k - |head|);
      bi, wi := b' + 1, w';
      assert (head + rest)[k] == rest[k - |head|];
    }
  }

  /** Week `wi` of block `bi` is at its place in the flat list, annotated with its block. */
  predicate Placed(blocks: seq<Block>, bi: nat, wi: nat)
    requires bi < |blocks| && wi < |blocks[bi].weeks|
  {
    && WeeksBefore(blocks, bi) + wi < |Weeks(blocks)|
    && Weeks(blocks)[WeeksBefore(blocks, bi) + wi] == PlanWeek(blocks[bi].weeks[wi], blocks[bi].name, blocks[bi].blockType)
  }

  /** Entry `k` of the flat list is a week of some block, annotated with that block. */
  predicate FromSomeBlock(blocks: seq<Block>, k: nat)
    requires k < |Weeks(blocks)|
  {
    exists bi, wi :: 0 <= bi < |blocks| && 0 <= wi < |blocks[bi].weeks| &&
      Weeks(blocks)[k] == PlanWeek(blocks[bi].weeks[wi], blocks[bi].name, blocks[bi].blockType)
  }

  /**
   `allWeeks` lists every week of every block, block by block in block order
   and in each block's week order, with its block's name and type, and
   nothing else; without an open plan it is empty.
   */
  lemma AllWeeksSpec(st: State)
    ensures st.activePlan.None? ==> AllWeeks(st) == []
    ensures st.activePlan.Some? ==>
      var blocks := st.activePlan.value.blocks;
      && AllWeeks(st) == Weeks(blocks)
      && |Weeks(blocks)| == WeeksBefore(blocks, |blocks|)
      && (forall bi: nat, wi: nat :: bi < |blocks| && wi < |blocks[bi].weeks| ==> Placed(blocks, bi, wi))
      && (forall k: nat :: k < |Weeks(blocks)| ==> FromSomeBlock(blocks, k))
  {
    if st.activePlan.Some? {
      var blocks := st.activePlan.value.blocks;
      WeeksLength(blocks);
      forall bi: nat, wi: nat | bi < |blocks| && wi < |blocks[bi].weeks|
        ensures Placed(blocks, bi, wi)
      {
        WeeksAt(blocks, bi, wi);
      }
      forall k: nat | k < |Weeks(blocks)|
        ensures FromSomeBlock(blocks, k)
      {
        var bi, wi := WeeksSource(blocks, k);
      }
    }
  }

  /** `currentWeekIndex`: -1 without a selection, otherwise the selected week's first position in `allWeeks`, or -1. */
  function CurrentWeekIndex(st: State): (r: int)
    ensures -1 <= r < |AllWeeks(st)|
    ensures r >= 0 ==>
      && Some(AllWeeks(st)[r].week.id) == st.selectedWeekId
      && forall k :: 0 <= k < r ==> Some(AllWeeks(st)[k].week.id) != st.selectedWeekId
    ensures r == -1 <==>
      || !TruthyStr(st.selectedWeekId)
      || forall k :: 0 <= k < |AllWeeks(st)| ==> Some(AllWeeks(st)[k].week.id) != st.selectedWeekId
  {
    if !TruthyStr(st.selectedWeekId) then -1
    else FindIndex(AllWeeks(st), PlanWeekIs(st.selectedWeekId.value))
  }

  /** `hasPreviousWeek` */
  predicate HasPreviousWeek(st: State) {
    CurrentWeekIndex(st) > 0
  }

  /** `hasNextWeek`: note that it holds with no week selected as long as there is a week. */
  predicate HasNextWeek(st: State) {
    CurrentWeekIndex(st) < |AllWeeks(st)| - 1
  }

  /** Without a current week, "next" is available exactly when the plan has any week. */
  lemma HasNextWithoutSelection(st: State)
    requires CurrentWeekIndex(st) == -1
    ensures HasNextWeek(st) <==> |AllWeeks(st)| > 0
    ensures !HasPreviousWeek(st)
  {
  }

  datatype StatusCounts = StatusCounts(draft: nat, active: nat, completed: nat, archived: nat)

  function HasStatus(status: string): PlanSummary -> bool {
    (p: PlanSummary) => p.status == status
  }

  predicate Tallied(p: PlanSummary) {
    p.status == "draft" || p.status == "active" || p.status == "completed" || p.status == "archived"
  }

  /** `planStatusCounts` */
  function PlanStatusCounts(plans: seq<PlanSummary>): StatusCounts {
    StatusCounts(
      Count(plans, HasStatus("draft")),
      Count(plans, HasStatus("active")),
      Count(plans, HasStatus("completed")),
      Count(plans, HasStatus("archived")))
  }

  function Total(c: StatusCounts): nat {
    c.draft + c.active + c.completed + c.archived
  }

  /** The four counts together count exactly the plans with one of the four statuses, so never more than all plans. */
  lemma {:induction false} StatusCountsTotal(plans: seq<PlanSummary>)
    ensures Total(PlanStatusCounts(plans)) == Count(plans, Tallied)
    ensures Total(PlanStatusCounts(plans)) <= |plans|
  {
    if |plans| > 0 {
      var t := plans[1..];
      StatusCountsTotal(t);
      assert Count(plans, HasStatus("draft")) == (if plans[0].status == "draft" then 1 else 0) + Count(t, HasStatus("draft"));
      assert Count(plans, HasStatus("active")) == (if plans[0].status == "active" then 1 else 0) + Count(t, HasStatus("active"));
      assert Count(plans, HasStatus("completed")) == (if plans[0].status == "completed" then 1 else 0) + Count(t, HasStatus("completed"));
      assert Count(plans, HasStatus("archived")) == (if plans[0].status == "archived" then 1 else 0) + Count(t, HasStatus("archived"));
      assert Count(plans, Tallied) == (if Tallied(plans[0]) then 1 else 0) + Count(t, Tallied);
    }
  }

  // ------------------------------------------------------------------
  // Actions
  // ------------------------------------------------------------------

  /** `fetchPlans` with the service's answer. */
  function FetchPlans(st: State, fetched: Result<seq<PlanSummary>>): (r: State)
    ensures !r.loading
    ensures r.activePlan == st.activePlan && r.selectedBlockId == st.selectedBlockId && r.selectedWeekId == st.selectedWeekId
    ensures fetched.Ok? ==> r.plans == fetched.value && r.error.None?
    ensures fetched.Err? ==> r.plans == st.plans && r.error == Some(fetched.message)
  {
    match fetched
    case Ok(ps) => st.(plans := ps, loading := false, error := None)
    case Err(msg) => st.(loading := false, error := Some(msg))
  }

  /**
   `loadPlan` with the service's answer: the plan is opened and its first
   block and that block's first week are selected. A plan without blocks,
   or a first block without weeks, leaves the earlier selection in place.
   */
  function LoadPlan(st: State, loaded: Result<ActivePlan>): (r: State)
    ensures !r.loading && r.plans == st.plans
    ensures loaded.Err? ==> r == st.(loading := false, error := Some(loaded.message))
    ensures loaded.Ok? ==> r.activePlan == Some(loaded.value) && r.error.None?
  {
    match loaded
    case Err(msg) => st.(loading := false, error := Some(msg))
    case Ok(p) =>
      var shown := st.(activePlan := Some(p), loading := false, error := None);
      if |p.blocks| == 0 then shown
      else if |p.blocks[0].weeks| > 0 then shown.(selectedBlockId := Some(p.blocks[0].id), selectedWeekId := Some(p.blocks[0].weeks[0].id))
      else shown.(selectedBlockId := Some(p.blocks[0].id))
  }

  /** Loading a plan whose first block has weeks shows that block and its first week. */
  lemma LoadPlanSelectsFirst(st: State, p: ActivePlan)
    requires |p.blocks| > 0 && |p.blocks[0].weeks| > 0
    requires p.blocks[0].id != "" && p.blocks[0].weeks[0].id != ""
    ensures SelectedBlock(LoadPlan(st, Ok(p))) == Some(p.blocks[0])
    ensures SelectedWeek(LoadPlan(st, Ok(p))) == Some(p.blocks[0].weeks[0])
    ensures CurrentWeekIndex(LoadPlan(st, Ok(p))) == 0
  {
    var r := LoadPlan(st, Ok(p));
    assert BlockIs(p.blocks[0].id)(p.blocks[0]);
    assert WeekIs(p.blocks[0].weeks[0].id)(p.blocks[0].weeks[0]);
    WeeksAt(p.blocks, 0, 0);
    assert PlanWeekIs(p.blocks[0].weeks[0].id)(AllWeeks(r)[0]);
  }

  /** `selectBlock`: the block is selected together with its first week, or with no week. */
  function SelectBlock(st: State, blockId: string): (r: State)
    ensures r.selectedBlockId == Some(blockId)
    ensures r.activePlan == st.activePlan && r.plans == st.plans && r.error == st.error
  {
    var block := if st.activePlan.Some? then Find(st.activePlan.value.blocks, BlockIs(blockId)) else None;
    if block.Some? && |block.value.weeks| > 0 then st.(selectedBlockId := Some(blockId), selectedWeekId := Some(block.value.weeks[0].id))
    else st.(selectedBlockId := Some(blockId), selectedWeekId := None)
  }

  /**
   After selecting a block of the open plan, that block is the selected one
   and the selected week is its first week, or there is none when the block
   has no weeks.
   */
  lemma SelectBlockSpec(st: State, blockId: string)
    requires blockId != "" && st.activePlan.Some?
    ensures SelectedBlock(SelectBlock(st, blockId)) == Find(st.activePlan.value.blocks, BlockIs(blockId))
    ensures var b := SelectedBlock(SelectBlock(st, blockId));
      b.Some? && |b.value.weeks| > 0 && b.value.weeks[0].id != "" ==> SelectedWeek(SelectBlock(st, blockId)) == Some(b.value.weeks[0])
    ensures var b := SelectedBlock(SelectBlock(st, blockId));
      b.None? || |b.value.weeks| == 0 ==> SelectBlock(st, blockId).selectedWeekId.None? && SelectedWeek(SelectBlock(st, blockId)).None?
  {
    var b := SelectedBlock(SelectBlock(st, blockId));
    if b.Some? && |b.value.weeks| > 0 {
      assert WeekIs(b.value.weeks[0].id)(b.value.weeks[0]);
    }
  }

  /** `selectWeek`: the week is selected and, in an open plan, so is the first block that contains it. */
  function SelectWeek(st: State, weekId: string): (r: State)
    ensures r.selectedWeekId == Some(weekId)
    ensures r.activePlan == st.activePlan && r.plans == st.plans && r.error == st.error
  {
    var holder := if st.activePlan.Some? then Find(st.activePlan.value.blocks, ContainsWeek(weekId)) else None;
    if holder.Some? then st.(selectedBlockId := Some(holder.value.id), selectedWeekId := Some(weekId))
    else st.(selectedWeekId := Some(weekId))
  }

  /** A week no block contains, or no open plan, leaves the block selection as it was. */
  lemma SelectWeekUnknown(st: State, weekId: string)
    requires st.activePlan.None? || forall b :: b in st.activePlan.value.blocks ==> !HasWeek(b, weekId)
    ensures SelectWeek(st, weekId).selectedBlockId == st.selectedBlockId
  {
  }

  predicate UniqueBlockIds(blocks: seq<Block>) {
    forall i, j :: 0 <= i < j < |blocks| ==> blocks[i].id != blocks[j].id
  }

  predicate IdsPresent(blocks: seq<Block>) {
    forall i :: 0 <= i < |blocks| ==> blocks[i].id != ""
  }

  /**
   Selecting a week of the open plan (block ids being unique and present)
   makes the first block containing it the selected block and the week the
   selected week.
   */
  lemma SelectWeekSpec(st: State, weekId: string, bi: nat)
    requires weekId != "" && st.activePlan.Some?
    requires UniqueBlockIds(st.activePlan.value.blocks) && IdsPresent(st.activePlan.value.blocks)
    requires bi < |st.activePlan.value.blocks| && HasWeek(st.activePlan.value.blocks[bi], weekId)
    ensures var r := SelectWeek(st, weekId);
      && SelectedBlock(r) == Find(st.activePlan.value.blocks, ContainsWeek(weekId))
      && SelectedBlock(r).Some? && HasWeek(SelectedBlock(r).value, weekId)
      && SelectedWeek(r).Some? && SelectedWeek(r).value.id == weekId
  {
    var blocks := st.activePlan.value.blocks;
    assert ContainsWeek(weekId)(blocks[bi]);
    var k := FindIndex(blocks, ContainsWeek(weekId));
    var h := blocks[k];
    var r := SelectWeek(st, weekId);
    assert r.selectedBlockId == Some(h.id);
    var k' := FindIndex(blocks, BlockIs(h.id));
    assert BlockIs(h.id)(blocks[k]);
    assert k' == k;
    var wi :| 0 <= wi < |h.weeks| && h.weeks[wi].id == weekId;
    assert WeekIs(weekId)(h.weeks[wi]);
  }

  /** `previousWeek`: selects the week before the current one, when there is one. */
  function PreviousWeek(st: State): (r: State)
    ensures !HasPreviousWeek(st) ==> r == st
    ensures HasPreviousWeek(st) ==> r == SelectWeek(st, AllWeeks(st)[CurrentWeekIndex(st) - 1].week.id)
  {
    if !HasPreviousWeek(st) then st
    else SelectWeek(st, AllWeeks(st)[CurrentWeekIndex(st) - 1].week.id)
  }

  /** `nextWeek`: selects the week after the current one (the first week when none is current), when there is one. */
  function NextWeek(st: State): (r: State)
    ensures !HasNextWeek(st) ==> r == st
    ensures HasNextWeek(st) ==> r == SelectWeek(st, AllWeeks(st)[CurrentWeekIndex(st) + 1].week.id)
  {
    if !HasNextWeek(st) then st
    else SelectWeek(st, AllWeeks(st)[CurrentWeekIndex(st) + 1].week.id)
  }

  /** Week ids are unique across the plan and present. */
  predicate DistinctWeeks(ws: seq<PlanWeek>) {
    && (forall i, j :: 0 <= i < j < |ws| ==> ws[i].week.id != ws[j].week.id)
    && (forall i :: 0 <= i < |ws| ==> ws[i].week.id != "")
  }

  /** Selecting the week at position `k` of `allWeeks` makes `k` the current index. */
  lemma SelectWeekAt(st: State, k: nat)
    requires DistinctWeeks(AllWeeks(st)) && k < |AllWeeks(st)|
    ensures CurrentWeekIndex(SelectWeek(st, AllWeeks(st)[k].week.id)) == k
  {
    var id := AllWeeks(st)[k].week.id;
    var r := SelectWeek(st, id);
    assert AllWeeks(r) == AllWeeks(st);
    assert PlanWeekIs(id)(AllWeeks(st)[k]);
  }

  /** With distinct week ids, "previous" moves exactly one week back, and does nothing on the first week or without a current week. */
  lemma PreviousWeekSpec(st: State)
    requires DistinctWeeks(AllWeeks(st))
    ensures HasPreviousWeek(st) ==> CurrentWeekIndex(PreviousWeek(st)) == CurrentWeekIndex(st) - 1
    ensures CurrentWeekIndex(st) <= 0 ==> PreviousWeek(st) == st
  {
    if HasPreviousWeek(st) {
      SelectWeekAt(st, CurrentWeekIndex(st) - 1);
    }
  }

  /** With distinct week ids, "next" moves exactly one week on (to the first week without a current one), and does nothing on the last week. */
  lemma NextWeekSpec(st: State)
    requires DistinctWeeks(AllWeeks(st))
    ensures HasNextWeek(st) ==> CurrentWeekIndex(NextWeek(st)) == CurrentWeekIndex(st) + 1
    ensures CurrentWeekIndex(st) == |AllWeeks(st)| - 1 ==> NextWeek(st) == st
  {
    if HasNextWeek(st) {
      SelectWeekAt(st, CurrentWeekIndex(st) + 1);
    }
  }

  /**
   `refreshPlan`: reloads the open plan and then restores the block selected
   before, if the reloaded plan still has it, and then the week selected
   before, if that block still has it. Without an open plan it does nothing.
   */
  function RefreshPlan(st: State, loaded: Result<ActivePlan>): (r: State)
    ensures st.activePlan.None? ==> r == st
  {
    if st.activePlan.None? then st
    else
      var blockId := st.selectedBlockId;
      var weekId := st.selectedWeekId;
      var after := LoadPlan(st, loaded);
      var blocks := after.activePlan.value.blocks;
      if TruthyStr(blockId) && Find(blocks, BlockIs(blockId.value)).Some? then
        var reselected := SelectBlock(after, blockId.value);
        var block := Find(blocks, BlockIs(blockId.value));
        if TruthyStr(weekId) && HasWeek(block.value, weekId.value) then reselected.(selectedWeekId := weekId)
        else reselected
      else after
  }

  /** A refresh whose reloaded plan still has the selected block and week keeps both selected. */
  lemma RefreshKeepsSelection(st: State, loaded: Result<ActivePlan>)
    requires st.activePlan.Some? && TruthyStr(st.selectedBlockId) && TruthyStr(st.selectedWeekId)
    requires var blocks := LoadPlan(st, loaded).activePlan.value.blocks;
      exists i :: 0 <= i < |blocks| && blocks[i].id == st.selectedBlockId.value
    requires var blocks := LoadPlan(st, loaded).activePlan.value.blocks;
      HasWeek(blocks[FindIndex(blocks, BlockIs(st.selectedBlockId.value))], st.selectedWeekId.value)
    ensures RefreshPlan(st, loaded).selectedBlockId == st.selectedBlockId
    ensures RefreshPlan(st, loaded).selectedWeekId == st.selectedWeekId
    ensures RefreshPlan(st, loaded).activePlan == LoadPlan(st, loaded).activePlan
  {
    var blocks := LoadPlan(st, loaded).activePlan.value.blocks;
    var i :| 0 <= i < |blocks| && blocks[i].id == st.selectedBlockId.value;
    assert BlockIs(st.selectedBlockId.value)(blocks[i]);
  }

  /** A refresh whose reloaded plan lost the selected block keeps the fresh load's selection. */
  lemma RefreshLostBlock(st: State, loaded: Result<ActivePlan>)
    requires st.activePlan.Some?
    requires var blocks := LoadPlan(st, loaded).activePlan.value.blocks;
      forall i :: 0 <= i < |blocks| ==> Some(blocks[i].id) != st.selectedBlockId
    ensures RefreshPlan(st, loaded) == LoadPlan(st, loaded)
  {
  }

  /** `clearPlan`: closes the plan and drops both selections and the error; nothing is selected afterwards. */
  function ClearPlan(st: State): (r: State)
    ensures r.activePlan.None? && r.selectedBlockId.None? && r.selectedWeekId.None? && r.error.None?
    ensures r.plans == st.plans && r.loading == st.loading
    ensures SelectedBlock(r).None? && SelectedWeek(r).None? && AllWeeks(r) == [] && CurrentWeekIndex(r) == -1
    ensures !HasPreviousWeek(r) && !HasNextWeek(r)
  {
    st.(activePlan := None, selectedBlockId := None, selectedWeekId := None, error := None)
  }
}
