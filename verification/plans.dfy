/**
 The plan service: a plan read with its blocks and weeks in display order,
 a new block with its generated weeks, a periodization template applied as
 a sequence of block inserts, and the coach's athlete selector.

 Thrown errors carry the database message, or a fixed text when that message
 is empty.
 */
module Plans {
  import opened Common
  import opened Text
  import opened Sorting

  /** `error.message || fallback` */
  function ErrorText(message: string, fallback: string): (t: string)
    ensures t != ""  <== fallback != ""
    ensures message != "" ==> t == message
  {
    if message != "" then message else fallback
  }

  // ------------------------------------------------------------------
  // getPlanById
  // ------------------------------------------------------------------

  datatype Sport = Sport(name: string, icon: Option<string>)

  datatype Profile = Profile(displayName: string, avatarUrl: Option<string>)

  datatype Week = Week(id: string, weekNumber: int, isDeload: bool)

  datatype Block = Block(id: string, name: string, blockType: Option<string>, orderIndex: int, weeks: Option<seq<Week>>)

  datatype PlanAthlete = PlanAthlete(athleteId: string, athlete: Relation<Profile>)

  datatype PlanAthleteView = PlanAthleteView(athleteId: string, athlete: Option<Profile>)

  /** The plan row as the nested select returns it. */
  datatype PlanRow = PlanRow(id: string, sport: Relation<Sport>, blocks: Option<seq<Block>>, athletes: Option<seq<PlanAthlete>>)

  datatype PlanView = PlanView(id: string, sport: Option<Sport>, blocks: Option<seq<Block>>, athletes: Option<seq<PlanAthleteView>>)

  function OrderKey(b: Block): real {
    b.orderIndex as real
  }

  function WeekKey(w: Week): real {
    w.weekNumber as real
  }

  /** A block with its weeks sorted by `week_number` (the comparator sort is stable). */
  function SortWeeks(b: Block): Block {
    if b.weeks.Some? then b.(weeks := Some(StableSortBy(b.weeks.value, WeekKey))) else b
  }

  function AthleteView(pa: PlanAthlete): PlanAthleteView {
    PlanAthleteView(pa.athleteId, Normalize(pa.athlete))
  }

  /** `getPlanById`: an error is thrown; otherwise the plan with relations normalised and blocks and weeks sorted. */
  function PlanById(data: Result<Option<PlanRow>>): Result<Option<PlanView>> {
    match data
    case Err(msg) => Err(ErrorText(msg, "Failed to fetch plan"))
    case Ok(None) => Ok(None)
    case Ok(Some(p)) =>
      Ok(Some(PlanView(
        p.id,
        Normalize(p.sport),
        if p.blocks.Some? then Some(Map(StableSortBy(p.blocks.value, OrderKey), SortWeeks)) else None,
        if p.athletes.Some? then Some(Map(p.athletes.value, AthleteView)) else None)))
  }

  /**
   The plan's blocks are its rows in ascending `order_index`, each block's
   weeks are its rows in ascending `week_number`, and the sport and athlete
   relations are normalised; `PlanBlocksStable` adds that no row is lost and
   ties keep their stored order.
   */
  lemma PlanByIdSpec(p: PlanRow)
    ensures var v := PlanById(Ok(Some(p))).value.value;
      && v.id == p.id && v.sport == Normalize(p.sport)
      && (v.blocks.Some? <==> p.blocks.Some?)
      && (v.athletes.Some? <==> p.athletes.Some?)
      && (p.athletes.Some? ==>
            && |v.athletes.value| == |p.athletes.value|
            && forall i :: 0 <= i < |p.athletes.value| ==> v.athletes.value[i].athlete == Normalize(p.athletes.value[i].athlete))
    ensures p.blocks.Some? ==>
      var bs := PlanById(Ok(Some(p))).value.value.blocks.value;
      && |bs| == |p.blocks.value|
      && (forall i, j :: 0 <= i < j < |bs| ==> bs[i].orderIndex <= bs[j].orderIndex)
      && (forall i :: 0 <= i < |bs| ==> exists b :: b in p.blocks.value && bs[i] == SortWeeks(b))
      && (forall i :: 0 <= i < |bs| ==> bs[i].weeks.Some? ==>
            forall j, k :: 0 <= j < k < |bs[i].weeks.value| ==> bs[i].weeks.value[j].weekNumber <= bs[i].weeks.value[k].weekNumber)
  {
    if p.blocks.Some? {
      var sorted := StableSortBy(p.blocks.value, OrderKey);
      var bs := Map(sorted, SortWeeks);
      forall i, j | 0 <= i < j < |bs|
        ensures bs[i].orderIndex <= bs[j].orderIndex
      {
        assert OrderKey(sorted[i]) <= OrderKey(sorted[j]);
      }
      forall i | 0 <= i < |bs|
        ensures exists b :: b in p.blocks.value && bs[i] == SortWeeks(b)
      {
        SortedMembers(p.blocks.value, OrderKey, sorted[i]);
        assert sorted[i] in sorted;
      }
      forall i | 0 <= i < |bs| && bs[i].weeks.Some?
        ensures forall j, k :: 0 <= j < k < |bs[i].weeks.value| ==> bs[i].weeks.value[j].weekNumber <= bs[i].weeks.value[k].weekNumber
      {
        var ws := bs[i].weeks.value;
        forall j, k | 0 <= j < k < |ws|
          ensures ws[j].weekNumber <= ws[k].weekNumber
        {
          assert WeekKey(ws[j]) <= WeekKey(ws[k]);
        }
      }
    }
  }

  /**
   The plan's blocks are a permutation of its (week-sorted) rows, and the
   blocks sharing an `order_index` appear in the order they were stored.
   */
  lemma PlanBlocksStable(p: PlanRow)
    ensures p.blocks.Some? ==>
      var bs := PlanById(Ok(Some(p))).value.value.blocks.value;
      && multiset(bs) == multiset(Map(p.blocks.value, SortWeeks))
      && forall k :: KeyClass(bs, OrderKey, k) == KeyClass(Map(p.blocks.value, SortWeeks), OrderKey, k)
  {
    if p.blocks.Some? {
      SortMap(p.blocks.value, OrderKey, SortWeeks, OrderKey);
    }
  }

  /** Sorting keeps every week of every block: each block's sorted weeks are a permutation of its rows. */
  lemma SortWeeksPermutes(b: Block)
    ensures SortWeeks(b).weeks.Some? <==> b.weeks.Some?
    ensures b.weeks.Some? ==> multiset(SortWeeks(b).weeks.value) == multiset(b.weeks.value)
    ensures SortWeeks(b).id == b.id && SortWeeks(b).orderIndex == b.orderIndex
  {
  }

  // ------------------------------------------------------------------
  // createBlock
  // ------------------------------------------------------------------

  datatype BlockInsert = BlockInsert(
    planId: string,
    name: string,
    blockType: Option<string>,
    focusTags: seq<string>,
    orderIndex: int,
    durationWeeks: Option<int>,
    volumeTarget: Option<real>,
    intensityTarget: Option<real>,
    aiGenerated: bool)

  datatype WeekInsert = WeekInsert(blockId: string, weekNumber: nat, name: string, volumeModifier: real, intensityModifier: real, isDeload: bool)

  /** The created block's id and the week rows sent with it. */
  datatype CreatedBlock = CreatedBlock(id: string, weeks: seq<WeekInsert>)

  /** Weeks `from` to `n` of a new block. */
  function WeeksFrom(blockId: string, from: nat, n: int): seq<WeekInsert>
    decreases n - from
  {
    if from > n || from == 0 then []
    else [WeekInsert(blockId, from, "Week " + ShowNat(from), 1.0, 1.0, false)] + WeeksFrom(blockId, from + 1, n)
  }

  /** Weeks `from..n` are numbered consecutively, named after their number, neutral and not deloads. */
  lemma {:induction false} WeeksFromSpec(blockId: string, from: nat, n: int)
    requires from >= 1
    ensures |WeeksFrom(blockId, from, n)| == if n >= from then n - from + 1 else 0
    ensures forall i :: 0 <= i < |WeeksFrom(blockId, from, n)| ==>
      WeeksFrom(blockId, from, n)[i] == WeekInsert(blockId, from + i, "Week " + ShowNat(from + i), 1.0, 1.0, false)
    decreases n - from
  {
    if from <= n {
      WeeksFromSpec(blockId, from + 1, n);
      var rest := WeeksFrom(blockId, from + 1, n);
      var w := WeekInsert(blockId, from, "Week " + ShowNat(from), 1.0, 1.0, false);
      assert WeeksFrom(blockId, from, n) == [w] + rest;
      forall i | 0 <= i < |WeeksFrom(blockId, from, n)|
        ensures WeeksFrom(blockId, from, n)[i] == WeekInsert(blockId, from + i, "Week " + ShowNat(from + i), 1.0, 1.0, false)
      {
        if i > 0 {
          assert ([w] + rest)[i] == rest[i - 1];
        }
      }
    }
  }

  /**
   `createBlock`: the insert's error is thrown; otherwise, when the duration
   is a positive number, weeks 1 to that number are sent with the block. The
   week insert's own failure is only logged.
   */
  function CreateBlock(block: BlockInsert, inserted: Result<string>): Result<CreatedBlock> {
    match inserted
    case Err(msg) => Err(ErrorText(msg, "Failed to create training block"))
    case Ok(id) =>
      var n := OrZeroInt(block.durationWeeks);
      Ok(CreatedBlock(id, if n > 0 then WeeksFrom(id, 1, n) else []))
  }

  /** A block of `n > 0` weeks gets weeks numbered 1 to `n`, "Week 1" to "Week n", and no duration means none. */
  lemma CreateBlockWeeks(block: BlockInsert, id: string)
    ensures var weeks := CreateBlock(block, Ok(id)).value.weeks;
      && |weeks| == (if OrZeroInt(block.durationWeeks) > 0 then OrZeroInt(block.durationWeeks) else 0)
      && forall i :: 0 <= i < |weeks| ==>
        weeks[i] == WeekInsert(id, i + 1, "Week " + ShowNat(i + 1), 1.0, 1.0, false)
  {
    WeeksFromSpec(id, 1, OrZeroInt(block.durationWeeks));
  }

  // ------------------------------------------------------------------
  // applyTemplate
  // ------------------------------------------------------------------

  datatype BlockDef = BlockDef(
    name: Option<string>,
    blockType: Option<string>,
    focusTags: Option<seq<string>>,
    durationWeeks: Option<int>,
    volumeTarget: Option<real>,
    intensityTarget: Option<real>)

  datatype TemplateStructure = TemplateStructure(blocks: Option<seq<BlockDef>>, periodizationModel: Option<string>)

  /** What applying a template did: the error thrown, if any, the block inserts attempted and the model written to the plan. */
  datatype TemplateOutcome = TemplateOutcome(error: Option<string>, cleared: bool, blocks: seq<BlockInsert>, modelUpdate: Option<string>)

  const NoStructure := "Template has no block structure"

  /** Block `i` of the template, with the defaults filled in. */
  function BlockFromDef(planId: string, defs: seq<BlockDef>): nat -> BlockInsert {
    (i: nat) =>
      var d := if i < |defs| then defs[i] else BlockDef(None, None, None, None, None, None);
      BlockInsert(
        planId,
        if TruthyStr(d.name) then d.name.value else "Block " + ShowNat(i + 1),
        NonEmpty(d.blockType),
        d.focusTags.GetOr([]),
        i,
        Some(if d.durationWeeks.Some? && d.durationWeeks.value != 0 then d.durationWeeks.value else 4),
        if Truthy(d.volumeTarget) then d.volumeTarget else None,
        if Truthy(d.intensityTarget) then d.intensityTarget else None,
        false)
  }

  /** Block inserts `0` to `n - 1`. */
  function Inserts(make: nat -> BlockInsert, n: nat): (r: seq<BlockInsert>)
    ensures |r| == n
    ensures forall i :: 0 <= i < n ==> r[i] == make(i)
  {
    if n == 0 then [] else Inserts(make, n - 1) + [make(n - 1)]
  }

  /**
   `applyTemplate`. `deleteError` is the clearing delete's error, `created(i)`
   the error thrown by creating block `i`, if any, and `updateError` that of
   the plan update. The first thrown error ends the operation.
   */
  function ApplyTemplate(planId: string, structure: Option<TemplateStructure>, deleteError: Option<string>,
                         created: nat -> Option<string>, updateError: Option<string>): (o: TemplateOutcome)
    ensures (structure.None? || structure.value.blocks.None?) ==> o == TemplateOutcome(Some(NoStructure), false, [], None)
    ensures structure.Some? && structure.value.blocks.Some? && deleteError.Some? ==>
      o == TemplateOutcome(Some(ErrorText(deleteError.value, "Failed to clear existing blocks")), false, [], None)
  {
    if structure.None? || structure.value.blocks.None? then TemplateOutcome(Some(NoStructure), false, [], None)
    else if deleteError.Some? then TemplateOutcome(Some(ErrorText(deleteError.value, "Failed to clear existing blocks")), false, [], None)
    else
      var defs := structure.value.blocks.value;
      var make := BlockFromDef(planId, defs);
      var b := FirstFailure(created, 0, |defs|);
      if b < |defs| then
        TemplateOutcome(Some(ErrorText(created(b).value, "Failed to create training block")), true, Inserts(make, b + 1), None)
      else if TruthyStr(structure.value.periodizationModel) then
        TemplateOutcome(if updateError.Some? then Some(ErrorText(updateError.value, "Failed to update plan")) else None,
          true, Inserts(make, |defs|), structure.value.periodizationModel)
      else TemplateOutcome(None, true, Inserts(make, |defs|), None)
  }

  /**
   When every block is created, block `i` of the template becomes the insert
   with order index `i`, its name or "Block i+1", its duration or 4 weeks, its
   tags or none, and no AI flag; the template's model is written only when it
   has one.
   */
  lemma ApplyTemplateBlocks(planId: string, s: TemplateStructure, created: nat -> Option<string>, updateError: Option<string>)
    requires s.blocks.Some?
    requires forall i: nat :: created(i).None?
    ensures var o := ApplyTemplate(planId, Some(s), None, created, updateError);
      && o.cleared
      && |o.blocks| == |s.blocks.value|
      && (o.modelUpdate.Some? <==> TruthyStr(s.periodizationModel))
      && (o.error.Some? ==> updateError.Some? && TruthyStr(s.periodizationModel))
      && forall i :: 0 <= i < |o.blocks| ==>
        var d := s.blocks.value[i];
        && o.blocks[i].orderIndex == i
        && o.blocks[i].planId == planId
        && o.blocks[i].name == (if TruthyStr(d.name) then d.name.value else "Block " + ShowNat(i + 1))
        && o.blocks[i].durationWeeks == Some(if d.durationWeeks.Some? && d.durationWeeks.value != 0 then d.durationWeeks.value else 4)
        && o.blocks[i].focusTags == d.focusTags.GetOr([])
        && !o.blocks[i].aiGenerated
  {
    FirstFailureNone(created, 0, |s.blocks.value|);
  }

  /** A failed block creation stops the loop: the blocks before it and the failing one were attempted. */
  lemma ApplyTemplateStops(planId: string, s: TemplateStructure, created: nat -> Option<string>, updateError: Option<string>, b: nat)
    requires s.blocks.Some? && b < |s.blocks.value|
    requires created(b).Some? && forall i :: 0 <= i < b ==> created(i).None?
    ensures var o := ApplyTemplate(planId, Some(s), None, created, updateError);
      && o.error == Some(ErrorText(created(b).value, "Failed to create training block"))
      && |o.blocks| == b + 1
      && o.modelUpdate.None?
  {
    FirstFailureAt(created, 0, b, |s.blocks.value|);
  }

  // ------------------------------------------------------------------
  // getCoachAthletes
  // ------------------------------------------------------------------

  datatype AthleteRef = AthleteRef(id: string, displayName: string, avatarUrl: Option<string>)

  predicate HasAthlete(row: Relation<AthleteRef>) {
    Normalize(row).Some?
  }

  function AthleteOf(row: Relation<AthleteRef>): AthleteRef {
    Normalize(row).GetOr(AthleteRef("", "", None))
  }

  function AthleteStep(row: Relation<AthleteRef>): seq<AthleteRef> {
    if HasAthlete(row) then [AthleteOf(row)] else []
  }

  /** `getCoachAthletes`: the error is thrown; otherwise each active link's athlete, dropping links without one. */
  function CoachAthletes(data: Result<Option<seq<Relation<AthleteRef>>>>): Result<seq<AthleteRef>> {
    match data
    case Err(msg) => Err(ErrorText(msg, "Failed to fetch athletes"))
    case Ok(rows) => Ok(FlatMap(rows.GetOr([]), AthleteStep))
  }

  /** The selector lists the links' athletes in order, exactly the links that resolve to one. */
  lemma CoachAthletesSpec(rows: seq<Relation<AthleteRef>>)
    ensures CoachAthletes(Ok(Some(rows))) == Ok(Map(Filter(rows, HasAthlete), AthleteOf))
    ensures forall i :: 0 <= i < |CoachAthletes(Ok(Some(rows))).value| ==>
      exists row :: row in rows && Normalize(row) == Some(CoachAthletes(Ok(Some(rows))).value[i])
  {
    FlatMapIsFilterMap(rows, AthleteStep, HasAthlete, AthleteOf);
    var kept := Filter(rows, HasAthlete);
    forall i | 0 <= i < |kept|
      ensures kept[i] in rows && Normalize(kept[i]) == Some(AthleteOf(kept[i]))
    {
      assert kept[i] in kept;
    }
  }
}
