# CoachHub core, modelled in Dafny

CoachHub is a coaching web application. Coaches build periodised training
plans (blocks of weeks holding sessions), publish them to athletes and
groups, and follow their athletes' completions, readiness check-ins and
compliance. This project models the application's decision logic as pure
functions over the rows its services fetch, and proves what that logic
promises.

The modelled parts are:

- **The rule-based adaptive engine** (`Adaptive`):
  - progressive overload;
  - the RPE-overreach and ACWR deload checks (ACWR is the acute:chronic workload ratio);
  - the readiness adjustment and the compliance alerts;
  - per-exercise progressions;
  - the two orchestrators, which sort their results stably by priority.
- **The athlete history digest** (`AthleteHistory`, `IsoWeek`, `Records`):
  - weekly volume grouped by ISO 8601 week, its average and trend;
  - average RPE, readiness and soreness, and a history ACWR;
  - top exercises;
  - overtraining flags and the context text lines.
- **Completing and assigning workouts** (`Assignments`, `Coaching`, `Streaks`):
  - the personal-best rules and the write order of a completion;
  - batch assignment and the weekly statistics;
  - compliance and its streak;
  - the daily workout streak.
- **Plans** (`Plans`, `PlanPublish`, `PlanAnalytics`, `Groups`):
  - plan loading with sorted blocks and weeks;
  - block creation with its weeks, and template application;
  - week publication as the workout × athlete cross product;
  - the changelog version bump;
  - weekly trends, athlete compliance, block summaries and readiness trends;
  - group member counts and program-to-group assignment with batched inserts.
- **Client stores** (`PlanStore`, `Auth`, `Notifications`): the plan editor's selection and week navigation, the auth getters and username sanitiser, and the notification list.
- **Routing and small services** (`Router`, `ExerciseLibrary`, `AiChat`): the router guard and route table, the exercise library's filter options and coach scope, and the AI chat session title.

**Modelling conventions**

- Numbers are `real`, and `Math.round(x)` is `floor(x + 0.5)`.
- JavaScript truthiness is written out: `Truthy`, `TruthyStr`, `OrZero`.
- A PostgREST foreign-key relation that may come back as an array or as a row is `Relation<T>`, normalised by `Normalize`.
- Every database answer is an input:
  - a query that can fail is a `Result`;
  - a nullable answer is an `Option`.
- Writes are returned records or outcome values.
- Dates are day numbers in the proleptic Gregorian calendar, and timestamps are integer milliseconds.
- "Now" and "today" are parameters.

Shared helpers:

- `Common`: options, results, filter, map, sums, rounding, first failure, cross product.
- `Text`: `String(n)`, `parseInt`, ASCII lower-casing, string order, sorted distinct values.
- `Sorting`: a stable sort with its permutation and stability lemmas.
- `Grouping`: group-by in first-seen key order, which models the source's `Map` accumulation loops.
- `Ranked`: a fixed run of `if (c) push(x)` statements.

Behaviours of the code that the model keeps as written:

- The history ACWR (src/services/athleteHistory.ts:174-182) divides the last week by the mean of the last four week entries. It does not use the mean of four weeks with volume, and it exists when there are at least four week entries and the last four total more than zero.
- The adaptive ACWR (src/services/adaptive.ts:297-404) averages only the positive weekly buckets. It is missing only with fewer than four completions or no positive week.
- The history summary checks no coach-athlete relationship.
- The compliance alert uses every assignment of the plan and athlete, with no date range.
- The aggregate overload check looks at every result of up to five completions, not only the most recent one.
- In the low-readiness branch, the `score <= 3` alternatives cannot be taken, so a low score always gives 25% and 75.

## Model

| member | source | states |
|---|---|---|
| Adaptive.OverloadOf | src/services/adaptive.ts:153-178 | a qualifying result yields a low-priority progressive-overload suggestion for that exercise with the prescribed weight, the RPE basis, a suggested weight within 0.1 kg of +2.5%, and confidence 85 exactly when RPE ≤ 6, else 70 |
| Adaptive.OverloadStepSpec | src/services/adaptive.ts:149-180 | one result contributes its suggestion exactly when it has an exercise and meets weight, reps and 0 < RPE ≤ 7.5 |
| Adaptive.OverloadLoopSpec | src/services/adaptive.ts:147-181 | the nested loop yields one suggestion per qualifying result across all completions, in fetch order, and nothing else |
| Adaptive.CheckOverloadSpec | src/services/adaptive.ts:125-187 | no assignments or no completions gives no suggestions; otherwise exactly the qualifying results' suggestions |
| Adaptive.CheckOverloadKinds | src/services/adaptive.ts:162-164 | every overload suggestion is of kind progressive overload with low priority |
| Adaptive.LinkedWorkout | src/services/adaptive.ts:225-241 | a feedback entry keeps its workout id only when the id is non-empty |
| Adaptive.FeedbackOf | src/services/adaptive.ts:222-235 | the feedback list has at most as many entries as there are completions |
| Adaptive.FeedbackOfSpec | src/services/adaptive.ts:222-235 | the feedback is exactly the completions with a non-null RPE, in order, each mapped to its RPE and linked workout; every entry comes from such a completion |
| Adaptive.TargetRpe | src/services/adaptive.ts:250 | the workout's target RPE when it is truthy, otherwise 7 |
| Adaptive.OverreachWalkIsLeadingRun | src/services/adaptive.ts:239-258 | the source's walk counts exactly the leading run of over-reaching linked sessions, skipping unlinked ones and stopping at the first one that does not over-reach |
| Adaptive.DeloadOf | src/services/adaptive.ts:260-276 | a deload suggestion is high priority and plan-scoped, inserts a 3-5 day deload at 40% volume reduction with a 70 intensity cap, and has confidence 90 when three or more sessions over-reached, else 75 |
| Adaptive.Buckets | src/services/adaptive.ts:328-353 | there are four weekly buckets, bucket k holding the volume of completions in [now − (k+1) weeks, now − k weeks) |
| Adaptive.BucketsDisjoint | src/services/adaptive.ts:328-335 | a completion falls in at most one bucket |
| Adaptive.BucketsCover | src/services/adaptive.ts:328-335 | every completion of the last 28 days falls in some bucket |
| Adaptive.ChronicBounds | src/services/adaptive.ts:346-355 | the chronic weeks never exceed the buckets; there are none exactly when no bucket is positive, and otherwise the total is positive |
| Adaptive.ChronicIncludesAcute | src/services/adaptive.ts:346-352 | a positive acute week is part of the chronic total |
| Adaptive.BucketsPositive | src/services/adaptive.ts:349-358 | no bucket is positive exactly when there are no chronic weeks; otherwise the chronic average is positive, so the zero-average return cannot happen |
| Adaptive.AcuteRatioBound | src/services/adaptive.ts:357-360 | the ratio of the acute week to the chronic average is at most 4 |
| Adaptive.RollingWorkload | src/services/adaptive.ts:318-360 | the workload is missing exactly when fewer than four completions were fetched or no bucket is positive; otherwise it holds the acute bucket, the mean of the positive buckets, and a ratio of at most 4 |
| Adaptive.RollingWorkloadSpec | src/services/adaptive.ts:320-347 | the missing cases are stated over the bucket volumes, and the acute load is the volume of the week before now |
| Adaptive.ClassifyAcwr | src/services/adaptive.ts:362-403 | a ratio above 1.3 gives a high-priority volume reduction with confidence 80; a ratio below 0.8 with acute load gives a low-priority volume check with confidence 65; otherwise nothing. The reported ratio is within 0.005 of the true one |
| Adaptive.ComputeAcwr | src/services/adaptive.ts:297-404 | the ACWR suggestion exists only when the workload exists, and is then its classification |
| Adaptive.OverreachPart | src/services/adaptive.ts:260-277 | the deload suggestion is emitted exactly when at least two consecutive sessions over-reached, and then only once |
| Adaptive.AcwrPart | src/services/adaptive.ts:281-284 | the ACWR suggestion, when there is one, is appended as a reduction or a volume check, never a deload insert |
| Adaptive.CheckDeload | src/services/adaptive.ts:196-290 | fewer than two recent completions give nothing, not even the ACWR check; otherwise at most two suggestions, with a deload first exactly when the over-reach run reaches two |
| Adaptive.Candidate | src/services/adaptive.ts:666-670 | each contributing factor carries the rank of its fixed position |
| Adaptive.ReadinessFactors | src/services/adaptive.ts:664-671 | the factors are in the fixed order quality, hours, soreness, energy, stress; each reports its logged value, and a factor is listed exactly when its threshold is met |
| Adaptive.BuildReadinessRationale | src/services/adaptive.ts:664-677 | the rationale carries the overall score and exactly those factors |
| Adaptive.CheckReadiness | src/services/adaptive.ts:413-474 | nothing without a log, with a falsy score, or with a score above 4; a score of at most 3 gives a critical swap to recovery (60%, 50, confidence 90); a score in (3, 4] gives a medium reduction (25%, 75, confidence 75) |
| Adaptive.StatusPartition | src/services/adaptive.ts:498-507 | completed, skipped and pending partition the assignments, and past-due ones are among the pending |
| Adaptive.RateThresholds | src/services/adaptive.ts:509-530 | a rate below 50% means 2c < t, and a rate below 70% means 10c < 7t |
| Adaptive.RatePercentBounds | src/services/adaptive.ts:521 | the rounded compliance percentage lies in [0, 100] |
| Adaptive.CheckCompliance | src/services/adaptive.ts:483-552 | fewer than three assignments give nothing; a rate below 50% gives one critical alert, one in [50%, 70%) a medium check-in; the reported compliance rate is the rounded completed share in percent, and the missed count is skipped plus past-due pending |
| Adaptive.ProgressionOf | src/services/adaptive.ts:595-614 | a progression is low priority for that exercise; it adds 1.25 kg up to 40 kg and 2.5 kg above, and has confidence 85 exactly when the last RPE ≤ 6 |
| Adaptive.ExerciseProgressionsSpec | src/services/adaptive.ts:575-616 | no exercises gives nothing; otherwise one progression per exercise whose latest result qualifies, in exercise order |
| Adaptive.ExerciseProgressionsLow | src/services/adaptive.ts:597-599 | there is at most one progression per exercise, all of low priority |
| Adaptive.SuggestionsForPlan | src/services/adaptive.ts:53-84 | the result is priority-sorted, a permutation of the checks' suggestions, and stable: within one priority they keep the order overload, deload, readiness, compliance |
| Adaptive.PlanMember | src/services/adaptive.ts:69-78 | every suggestion shown comes from one of the checks |
| Adaptive.PlanChecksWithoutAthlete | src/services/adaptive.ts:62-67 | without an athlete only the overload and deload checks run |
| Adaptive.PlanWideKinds | src/services/adaptive.ts:117-290 | the overload and deload checks never give readiness or compliance suggestions |
| Adaptive.PlanWithoutAthlete | src/services/adaptive.ts:62-69 | without an athlete no readiness or compliance suggestion appears |
| Adaptive.SortedBeforeLow | src/services/adaptive.ts:95-102 | at most one suggestion followed by low-priority ones is priority-sorted |
| Adaptive.SuggestionsForSession | src/services/adaptive.ts:89-108 | the unsorted concatenation of readiness and progressions is nonetheless priority-sorted, and it holds at most one more entry than there are exercises |
| Records.VolumeNonNegative | src/services/athleteHistory.ts:123-126 | sets × reps × weight is non-negative for non-negative factors |
| Records.ResultVolumeMissing | src/services/athleteHistory.ts:123-126 | a result with nothing recorded contributes 0 |
| Records.ResultVolumeOfRange | src/services/athleteHistory.ts:124 | a rep range such as "8-10" contributes its leading number |
| Records.ResultVolumeNonNegative | src/services/athleteHistory.ts:123-126 | a result with non-negative sets and weight has non-negative volume |
| Records.SessionVolumeNonNegative | src/services/athleteHistory.ts:120-127 | a session's volume is non-negative |
| Records.ExerciseName | src/services/athleteHistory.ts:254-257 | the name of the first or only related exercise, or none when it is empty or missing |
| AthleteHistory.WeeklyVolumesSpec | src/services/athleteHistory.ts:114-139 | there is one entry per ISO week with a completion, in first-seen order, holding the total volume of that week's completions |
| AthleteHistory.WeekKeyHasCompletion | src/services/athleteHistory.ts:117-139 | a week key appears only if some completion falls in that week |
| AthleteHistory.CompletionHasWeekKey | src/services/athleteHistory.ts:117-139 | every completion's week has a key |
| AthleteHistory.WeekKeysOrdered | src/services/athleteHistory.ts:114-141 | the week keys are distinct and in first-seen order |
| AthleteHistory.WeeklyTotal | src/services/athleteHistory.ts:141-142 | the weekly totals add up to the volume of all completions |
| AthleteHistory.AvgWeeklyVolume | src/services/athleteHistory.ts:143-145 | 0 without weeks (its bounds are stated below) |
| AthleteHistory.AvgWeeklyVolumeBounds | src/services/athleteHistory.ts:143-145 | after rounding, the average lies between the lightest and the heaviest week |
| AthleteHistory.ChangeThresholds | src/services/athleteHistory.ts:153-155 | a change above +10% means the second half exceeds 1.1 × the first, and below −10% means it is under 0.9 × |
| AthleteHistory.VolumeTrend | src/services/athleteHistory.ts:147-156 | stable with fewer than four weeks or an empty first half; otherwise increasing above a 10% rise and decreasing below a 10% fall |
| AthleteHistory.SteadyVolumeIsStable | src/services/athleteHistory.ts:147-156 | the same volume every week gives a stable trend |
| AthleteHistory.Present | src/services/athleteHistory.ts:159-161 | at most one value per entry, and none exactly when every entry is missing |
| AthleteHistory.PresentMembers | src/services/athleteHistory.ts:159-161 | the present values are exactly the values the entries carry |
| AthleteHistory.PresentSource | src/services/athleteHistory.ts:167-169 | each present value is carried by some entry |
| AthleteHistory.AvgRounded | src/services/athleteHistory.ts:162-164 | none exactly when every value is missing |
| AthleteHistory.AvgRoundedBounds | src/services/athleteHistory.ts:162-172 | values on a bounded scale average to a value on that scale |
| AthleteHistory.Scores | src/services/athleteHistory.ts:167-169 | one readiness score slot per log, in log order |
| AthleteHistory.Soreness | src/services/athleteHistory.ts:203-205 | one soreness slot per log, in log order |
| AthleteHistory.AvgSorenessDilution | src/services/athleteHistory.ts:203-205 | dividing by all logs makes the average the mean of the present soreness values scaled by their share |
| AthleteHistory.HistoryAcwr | src/services/athleteHistory.ts:174-182 | none exactly when there are fewer than four weeks or the last four weeks total at most 0 |
| AthleteHistory.HistoryAcwrBounds | src/services/athleteHistory.ts:174-182 | with non-negative weeks the estimate lies in [0, 4] |
| AthleteHistory.CountResultSpec | src/services/athleteHistory.ts:128-135 | counting gives the number of a name's results and its largest positive weight, or 0 |
| AthleteHistory.ExerciseFreqFaithful | src/services/athleteHistory.ts:115-135 | each frequency entry counts exactly that name's results |
| AthleteHistory.RankedOrder | src/services/athleteHistory.ts:185-187 | equal counts keep first-seen order, and no name is ranked twice |
| AthleteHistory.TopExercisesAreTop | src/services/athleteHistory.ts:184-187 | a name that is not listed has no more results than any listed exercise, and with as many results it was seen after that exercise |
| AthleteHistory.TopExercisesSelection | src/services/athleteHistory.ts:184-187 | for every unlisted name and every listed exercise, the listed one ranks at least as high |
| AthleteHistory.TopExercisesSpec | src/services/athleteHistory.ts:184-192 | there are at most eight exercises, by descending frequency with ties in first-seen order, each name once, each frequency the number of named results, and the best weight null when none is positive |
| AthleteHistory.Flags | src/services/athleteHistory.ts:194-206 | each flag appears at most once and in the fixed order, exactly when its test holds; the ACWR, RPE and readiness tests need a truthy value |
| AthleteHistory.Mentions | src/services/athleteHistory.ts:285-287 | one mention per top exercise, for at most the first five |
| AthleteHistory.ContextLines | src/services/athleteHistory.ts:272-292 | the lines come in fixed order, each pushed exactly when its test holds |
| AthleteHistory.ContextLinesFirst | src/services/athleteHistory.ts:272-278 | the athlete line comes first, and there are at least three lines |
| AthleteHistory.ContextLinesAlways | src/services/athleteHistory.ts:278-279 | the training-data and volume lines are always present |
| AthleteHistory.LineAt | src/services/athleteHistory.ts:276-291 | a line whose test holds sits at a position in the digest |
| AthleteHistory.ContextLinesOptional | src/services/athleteHistory.ts:276-282 | the level and injury lines appear exactly for non-empty values, and the RPE, readiness and ACWR lines exactly for truthy values |
| AthleteHistory.ContextLinesPayload | src/services/athleteHistory.ts:284-292 | the exercise line names at most five exercises, and the flags line holds all flags |
| AthleteHistory.ContextTextLines | src/services/athleteHistory.ts:294 | when no rendered line holds a line break, the text has one line per digest line and starts with the athlete line |
| AthleteHistory.OrText | src/services/athleteHistory.ts:210 | the value when non-empty, else the fallback |
| AthleteHistory.AthleteSummary | src/services/athleteHistory.ts:39-238 | the summary counts weeks with completions, rounds the total volume, falls back to "Unknown" and "Athlete" for names, has no RPE exactly when no feedback has one, and lists at most eight exercises |
| IsoWeek.DaysSinceMonday | src/services/athleteHistory.ts:248 | `(getDay() + 6) % 7` lies in 0 to 6 and equals the day number modulo 7, day 0 being a Monday |
| IsoWeek.AddDaysNumber | src/services/athleteHistory.ts:248 | moving by k days moves the day number by k, rolling over months and years |
| IsoWeek.YearLength | src/services/athleteHistory.ts:249-250 | a year has 365 days plus its leap day |
| IsoWeek.DayNumberInYear | src/services/athleteHistory.ts:249-250 | a date lies between 1 January and 31 December of its year |
| IsoWeek.ThursdayNumber | src/services/athleteHistory.ts:248 | the Thursday is three days after the week's Monday |
| IsoWeek.WeekOfYearSpec | src/services/athleteHistory.ts:245-251 | the week's year is that of its Thursday; the week number lies in 1 to 53 and counts whole weeks from the first Thursday of that year |
| IsoWeek.FourthOfJanuaryInWeekOne | src/services/athleteHistory.ts:249-250 | 4 January is always in week 1 |
| IsoWeek.SameWeek | src/services/athleteHistory.ts:246-251 | every day of a Monday-to-Sunday week gets the same week |
| IsoWeek.WeekKey | src/services/athleteHistory.ts:245-252 | the week-based year, then "-W", then two digits |
| Coaching.CurrentStreak | src/services/coaching.ts:143-154 | the loop counts the completed rows from the most recent one back to the first row that is not completed |
| Coaching.StreakIsLeadingRun | src/services/coaching.ts:144-154 | the count is the length of the maximal completed suffix |
| Coaching.SuffixAtMostCompleted | src/services/coaching.ts:143-154 | a completed suffix of length k holds k completed rows, so the streak never exceeds the completed count |
| Coaching.CalculateCompliance | src/services/coaching.ts:120-163 | a query error is passed on; otherwise the assigned and completed counts, missed = assigned − completed, the rounded rate in [0, 100] (0 without assignments), and the streak as the completed run ending at the most recent row |
| Coaching.RateBounds | src/services/coaching.ts:139-141 | the percentage lies in [0, 100] |
| Coaching.ListResult | src/services/coaching.ts:113-114 | a list query's error is thrown, and a null result reads as [] |
| Coaching.GuardedHistory | src/services/coaching.ts:80-114 | without an active relationship the call fails with the fixed message and reads nothing |
| Coaching.AddWorkoutFeedback | src/services/coaching.ts:168-206 | the completion lookup's error comes first, then the relationship check, then the update's error; on success the updated row is returned |
| Streaks.DiffDays | src/utils/streaks.ts:24-28 | the whole days from the last workout to today, or none without a last date |
| Streaks.UpdateStreak | src/utils/streaks.ts:4-57 | no row gives the first row (1, 1, today); the same day changes nothing; the next day extends the streak and raises the longest when passed; a gap resets to 1 |
| Streaks.UpdateStreakIdempotent | src/utils/streaks.ts:30-32 | a second workout on the same day changes nothing |
| Streaks.UpdateStreakConsistent | src/utils/streaks.ts:33-53 | the update keeps the current streak between 1 and the longest |
| Streaks.ReplayConsistent | src/utils/streaks.ts:14-53 | every row reached from the first insert keeps that invariant |
| Streaks.ReplayConsecutive | src/utils/streaks.ts:33-43 | logging on n consecutive days from scratch gives a current and longest streak of n |
| Streaks.AsWrittenFixedOffset | src/utils/streaks.ts:24-28 | without an offset change the written day difference is the calendar difference |
| Streaks.SpringForwardLosesDay | src/utils/streaks.ts:24-32 | across a spring-forward night the written difference is 0, and the streak is not extended |
| Assignments.CheckPersonalBest | src/services/assignments.ts:204-232 | an error or no stored best means a new best; for time, strictly lower wins; for others, strictly higher wins |
| Assignments.EqualIsNotPb | src/services/assignments.ts:223-227 | equalling the stored best is not a new one |
| Assignments.PbTransitive | src/services/assignments.ts:223-227 | a value that beats the best beats everything the best beat |
| Assignments.PbEntryOf | src/services/assignments.ts:163-180 | the first of positive weight, truthy reps, positive duration, positive distance decides the type; nothing is recorded for a zero or NaN value |
| Assignments.RepsShadowDuration | src/services/assignments.ts:166-178 | without a positive weight, any rep text decides the type, whatever the duration or distance |
| Assignments.NonNumericRepsRecordNothing | src/services/assignments.ts:169-180 | "AMRAP" reps record nothing even with a positive duration |
| Assignments.DurationOnly | src/services/assignments.ts:172-174 | with only a duration the best is a time of that duration |
| Assignments.ParseIntWord | src/services/assignments.ts:171 | `parseInt("AMRAP")` is NaN |
| Assignments.PbWritesSpec | src/services/assignments.ts:146-199 | there is one upsert per recordable best, in order, each naming its exercise and pointing at the completion |
| Assignments.PbWritesOnlyUpserts | src/services/assignments.ts:180-193 | the best writes are upserts only |
| Assignments.OnlyFlaggedResultsUpsert | src/services/assignments.ts:131-133 | only results flagged as bests reach the personal-best table |
| Assignments.CompleteWorkout | src/services/assignments.ts:69-141 | the completion insert comes first, with has_pb set when any result is a best; success holds exactly when the completion, the result insert (if any) and the status update all succeed |
| Assignments.BatchAssignments | src/services/assignments.ts:278-285 | there is one pending row per athlete id, in input order, with empty notes as null |
| Assignments.CreateBatchAssignments | src/services/assignments.ts:287-297 | an insert error becomes the fixed message; otherwise the created rows are returned |
| Assignments.MondayOffset | src/services/assignments.ts:496-497 | the offset is between −6 and 0 and lands on a Monday |
| Assignments.MondaySpec | src/services/assignments.ts:495-500 | the computed Monday is a Monday, at most six days back, in today's ISO week |
| Assignments.AssignmentStats | src/services/assignments.ts:503-534 | this week and completed are counted Monday to today, pending up to today without a lower bound; completed ≤ this week, and the rate is 0 without assignments and otherwise in [0, 100] |
| Assignments.PercentBounds | src/services/assignments.ts:525-527 | the rounded share lies in [0, 100] |
| PlanAnalytics.PlannedContribution | src/services/planAnalytics.ts:75-80 | an exercise adds sets × reps × weight only when all three are nonzero |
| PlanAnalytics.PlannedVolumeSpec | src/services/planAnalytics.ts:67-87 | the planned volume sums exactly over the exercises whose three factors are nonzero |
| PlanAnalytics.PlannedVolumeNonNegative | src/services/planAnalytics.ts:67-87 | non-negative prescriptions give a non-negative planned volume |
| PlanAnalytics.Intensities | src/services/planAnalytics.ts:81-84 | at most one intensity per exercise |
| PlanAnalytics.IntensitiesFrom | src/services/planAnalytics.ts:81-84 | each collected intensity is the truthy intensity of some exercise |
| PlanAnalytics.PlannedIntensity | src/services/planAnalytics.ts:123 | 0 without intensities (its bounds are stated below) |
| PlanAnalytics.PlannedIntensityBounds | src/services/planAnalytics.ts:81-123 | intensities on a percentage scale average, after rounding, to a percentage |
| PlanAnalytics.ActualVolumeAlwaysZero | src/services/planAnalytics.ts:104-111 | the actual volume reads the absent `weight_used` field, so it is 0 whatever was completed |
| PlanAnalytics.WeekRow | src/services/planAnalytics.ts:116-128 | a week's row carries its week, block name and type, session and completion counts, and an actual intensity of 0 |
| PlanAnalytics.BlockRowsSpec | src/services/planAnalytics.ts:55-129 | a block gives one row per week, ascending by week number, each labelled with the block |
| PlanAnalytics.WeeklyTrendsBlockOrder | src/services/planAnalytics.ts:55-130 | rows come block by block in block order |
| PlanAnalytics.TallySpec | src/services/planAnalytics.ts:148-167 | tallying an athlete's rows names the entry after the first row, and the totals count the rows |
| PlanAnalytics.FaithfulUnique | src/services/planAnalytics.ts:152-161 | an athlete has one entry |
| PlanAnalytics.AthleteComplianceSpec | src/services/planAnalytics.ts:138-177 | there is one entry per athlete with an assignment, highest rate first; each counts that athlete's rows, completed and skipped never exceed assigned, and the rate is the rounded percentage |
| PlanAnalytics.RateBounds | src/services/planAnalytics.ts:171-173 | every rate lies in [0, 100] |
| PlanAnalytics.AddWeekSpec | src/services/planAnalytics.ts:204-209 | folding a block's week rows counts them and sums their sessions, completions and volumes; the summary takes the first week's block name and type, with no RPE and no bests |
| PlanAnalytics.BlockSummariesSpec | src/services/planAnalytics.ts:182-213 | there is one summary per distinct block name, in first-appearance order; it counts that name's weeks, sums their sessions and volumes, and takes the type of the name's first week |
| PlanAnalytics.ReadinessTrendSpec | src/services/planAnalytics.ts:243-256 | the trend keeps exactly the logs with a score, in order, as (date, score) points |
| PlanPublish.MergeAthletes | src/services/planPublish.ts:51-69 | the explicit athletes come first, followed by the group members not among them, each with modifier 1.0 |
| PlanPublish.MergeAthletesSpec | src/services/planPublish.ts:60-68 | the explicit athletes stay in front, every group member is named, only group members are added and with modifier 1.0, and an added member never repeats an explicit id |
| PlanPublish.PublishSource | src/services/planPublish.ts:92 | the source is "group_publish" exactly when a group id is given |
| PlanPublish.Deliver | src/services/planPublish.ts:76-145 | the assignments are the workout × athlete product; the result reports the workouts and the inserted count; one notification goes to each target, and the changelog records "published" |
| PlanPublish.PublishWeek | src/services/planPublish.ts:27-151 | a workouts error is the only error: its message when the thrown value is an `Error` instance, else "Unknown error"; no sessions or no targets stop with their fixed message; otherwise the publication runs |
| PlanPublish.PublishMembersFailure | src/services/planPublish.ts:52-60 | the group-lookup failure is reported exactly when a group id was given and the lookup failed |
| PlanPublish.PublishCrossProduct | src/services/planPublish.ts:79-97 | workout i and athlete j sit at position i × athletes + j, pending, with the athlete's modifier or 1.0 and the publish source |
| PlanPublish.PublishedProduct | src/services/planPublish.ts:76-97 | with sessions and targets the assignments are the nested loop's product |
| PlanPublish.PublishCount | src/services/planPublish.ts:79-97 | one assignment is written per (workout, athlete) pair |
| PlanPublish.PublishAssignmentsFromPairs | src/services/planPublish.ts:79-97 | every assignment pairs a week workout with a target athlete |
| PlanPublish.IsWeekPublished | src/services/planPublish.ts:174-183 | false on an error, else whether the count is positive |
| PlanPublish.AddEntryVersion | src/services/planPublish.ts:193-231 | a structural change records the next version and stores it; any other change records the current version and leaves the plan alone |
| PlanPublish.ReplayCountsBumps | src/services/planPublish.ts:208-227 | after a history the plan is at version one plus its number of structural changes |
| Groups.MemberCountsSpec | src/services/groups.ts:38-45 | each group gets the number of membership rows that name it, or 0 |
| Groups.CoachGroupsSpec | src/services/groups.ts:7-49 | there is one view per group row, in order, with normalised relations and the group's member count |
| Groups.AthleteGroupsSpec | src/services/groups.ts:319-346 | the memberships that resolve to a group, in order, with normalised relations |
| Groups.WeekNumberOf | src/services/groups.ts:268-278 | a week number is found exactly when some program week has the id |
| Groups.GroupAssignmentAt | src/services/groups.ts:277-294 | every assignment pairs a workout with a member, dated the start plus its week offset plus its weekday, pending |
| Groups.DayOffsetWithinWeek | src/services/groups.ts:278-279 | sessions with weekdays 0 to 6 fall within their week's seven days |
| Groups.BatchesSpec | src/services/groups.ts:297-305 | the batches cover the rows once and in order; there are ceil(n / 100) of them, each of 1 to 100 rows, all but the last full |
| Groups.BatchAt | src/services/groups.ts:298-299 | batch b is rows 100b up to 100b + 100 or the end |
| Groups.InsertBatches | src/services/groups.ts:296-305 | the first failing batch stops the loop and is reported by its one-based number; earlier batches were inserted, later ones not |
| Groups.AssignProgramToGroup | src/services/groups.ts:229-313 | missing or empty weeks, workouts and members fail with their fixed messages in that order; otherwise the rows are inserted in batches |
| Groups.AssignedInsertsAll | src/services/groups.ts:296-312 | a successful run inserts every row once, in order, and reports workouts × members rows |
| Groups.AsWrittenSteadyZone | src/services/groups.ts:274-283 | without an offset change, the written date is start plus offset |
| Groups.SummerTimeShiftsDate | src/services/groups.ts:274-283 | a session after the clocks go forward is written a day early |
| Plans.ErrorText | src/services/plans.ts:87 | the error's message when non-empty, else the fallback |
| Plans.PlanByIdSpec | src/services/plans.ts:83-113 | the blocks ascend by order index and each comes from a stored row; each block's weeks ascend by week number; the sport and athletes are normalised |
| Plans.PlanBlocksStable | src/services/plans.ts:95-96 | the blocks are a permutation of the week-sorted rows, and the blocks sharing an order index keep their stored order |
| Plans.SortWeeksPermutes | src/services/plans.ts:98-102 | sorting keeps every week of every block |
| Plans.WeeksFromSpec | src/services/plans.ts:224-234 | the weeks are numbered consecutively, named "Week n", with neutral modifiers and no deload |
| Plans.CreateBlockWeeks | src/services/plans.ts:210-246 | a block with a positive duration n gets weeks 1 to n, named "Week 1" to "Week n", with neutral modifiers and no deload; otherwise none |
| Plans.Inserts | src/services/plans.ts:455-470 | the loop builds inserts 0 to n − 1 |
| Plans.ApplyTemplate | src/services/plans.ts:437-478 | no structure throws first; a delete error stops before any block is created |
| Plans.ApplyTemplateBlocks | src/services/plans.ts:455-470 | when every creation succeeds, block i gets order index i, its name or "Block i+1", its duration or 4 weeks, and its tags or none; the model is written exactly when the template has one |
| Plans.ApplyTemplateStops | src/services/plans.ts:455-470 | a failed creation of block b ends the loop with its error after b + 1 attempts, and the model is not written |
| Plans.CoachAthletesSpec | src/services/plans.ts:487-503 | the selector lists exactly the links that resolve to an athlete, in order |
| PlanStore.SelectedBlock | src/stores/plans.ts:27-30 | a block of the open plan with the selected id; none without an open plan or a selection |
| PlanStore.SelectedWeek | src/stores/plans.ts:32-35 | a week of the selected block with the selected id |
| PlanStore.WeeksAt | src/stores/plans.ts:37-50 | week w of block b sits, annotated with that block, after the weeks of the earlier blocks |
| PlanStore.WeeksSource | src/stores/plans.ts:37-50 | every entry of the flat list is some block's week, annotated with that block |
| PlanStore.AllWeeksSpec | src/stores/plans.ts:37-50 | the flat list holds every week of every block, in block order and week order, with its block's name and type, and nothing else; it is empty without a plan |
| PlanStore.CurrentWeekIndex | src/stores/plans.ts:52-55 | −1 without a selection, otherwise the selected week's first position or −1 |
| PlanStore.HasNextWithoutSelection | src/stores/plans.ts:52-58 | without a current week, "next" is available exactly when the plan has weeks |
| PlanStore.StatusCountsTotal | src/stores/plans.ts:60-67 | the four counts count exactly the plans with one of the four statuses, never more than all plans |
| PlanStore.FetchPlans | src/stores/plans.ts:73-84 | success replaces the list; an error keeps it and records the message; loading ends either way |
| PlanStore.LoadPlan | src/stores/plans.ts:86-108 | success opens the plan and clears the error; an error keeps the state and records the message; loading ends either way |
| PlanStore.LoadPlanSelectsFirst | src/stores/plans.ts:92-101 | loading a plan whose first block has weeks shows that block and its first week |
| PlanStore.SelectBlock | src/stores/plans.ts:110-120 | the block id is selected, and the plan, list and error are unchanged |
| PlanStore.SelectBlockSpec | src/stores/plans.ts:110-120 | after selecting a block of the open plan, it is the selected block and its first week (or none) is the selected week |
| PlanStore.SelectWeek | src/stores/plans.ts:122-134 | the week id is selected, and the plan, list and error are unchanged |
| PlanStore.SelectWeekUnknown | src/stores/plans.ts:122-134 | a week no block holds, or no open plan, leaves the block selection alone |
| PlanStore.SelectWeekSpec | src/stores/plans.ts:122-134 | with unique block ids, selecting a week of the plan selects its block and that week |
| PlanStore.PreviousWeek | src/stores/plans.ts:136-140 | selects the week before the current one when there is one |
| PlanStore.NextWeek | src/stores/plans.ts:142-146 | selects the week after the current one, or the first week without one, when there is one |
| PlanStore.SelectWeekAt | src/stores/plans.ts:52-55 | selecting the week at position k makes k the current index |
| PlanStore.PreviousWeekSpec | src/stores/plans.ts:136-140 | with distinct week ids "previous" moves exactly one week back, and does nothing on the first week or without a current week |
| PlanStore.NextWeekSpec | src/stores/plans.ts:142-146 | with distinct week ids "next" moves exactly one week on, to the first week without a current one, and does nothing on the last week |
| PlanStore.RefreshPlan | src/stores/plans.ts:148-167 | without an open plan nothing changes |
| PlanStore.RefreshKeepsSelection | src/stores/plans.ts:155-166 | a refresh that still has the selected block and week keeps both |
| PlanStore.RefreshLostBlock | src/stores/plans.ts:148-167 | a refresh that lost the selected block keeps the fresh load's selection |
| PlanStore.ClearPlan | src/stores/plans.ts:169-174 | closes the plan and drops both selections and the error |
| Auth.RolesExclusive | src/stores/auth.ts:17-19 | at most one of coach, athlete and follower holds, and none without a profile |
| Auth.DisplayName | src/stores/auth.ts:20 | the display name, else the email, else "User", with empty strings falling through |
| Auth.DisplayNameSource | src/stores/auth.ts:20 | the shown name is one of the three candidates |
| Auth.AvatarUrl | src/stores/auth.ts:21 | the profile's avatar, with an empty one as none |
| Auth.KeepUsernameChars | src/stores/auth.ts:102 | the kept characters are lower-case letters, digits and underscores only |
| Auth.Sanitize | src/stores/auth.ts:102 | the username holds only username characters |
| Auth.KeepUsernameCharsFixed | src/stores/auth.ts:102 | a string of username characters is left as it is |
| Auth.SanitizeValid | src/stores/auth.ts:119 | an already valid username is unchanged |
| Auth.SanitizeIdempotent | src/stores/auth.ts:119 | sanitising twice is sanitising once |
| Auth.SanitizeSubsequence | src/stores/auth.ts:102 | the username is a subsequence of the lower-cased input |
| Auth.KeepUsernameCharsComplete | src/stores/auth.ts:102 | every username character of the input survives |
| Auth.SanitizeKeepsValidChars | src/stores/auth.ts:119 | each valid character occurs in the username as often as in the lower-cased input |
| Router.Guard | src/router/index.ts:178-202 | the navigation proceeds exactly when the route's session, guest, coach and athlete requirements all hold |
| Router.GuardIsFirstFailing | src/router/index.ts:178-202 | the guard is the first failing check of the four, in order |
| Router.SignedOutToLogin | src/router/index.ts:179-182 | a signed-out visitor on a session route goes to login with the full path as redirect |
| Router.LoginOnlyWhenSignedOut | src/router/index.ts:179-188 | login is chosen only for a signed-out visitor on a session route |
| Router.FeedWhenRoleCheckFails | src/router/index.ts:184-200 | the feed is chosen exactly when the session check passes and a guest, coach or athlete check fails |
| Router.CoachAndAthleteUnreachable | src/router/index.ts:190-200 | nobody passes a route requiring both coach and athlete |
| Router.RouteTableMetas | src/router/index.ts:6-143 | every route carries one of five kinds of meta, and none needs both a session and a guest |
| Router.TableAccess | src/router/index.ts:6-143 | a signed-in coach reaches every member and coach page and no athlete or guest page; a signed-out visitor reaches only guest pages and the open route |
| ExerciseLibrary.AllValuesMembers | src/services/exerciseLibrary.ts:160-167 | a value is collected exactly when some row's array holds it |
| ExerciseLibrary.OptionsSpec | src/services/exerciseLibrary.ts:150-169 | the options are strictly increasing, a value is an option exactly when some row holds it, and that determines the list |
| ExerciseLibrary.OptionsDistinct | src/services/exerciseLibrary.ts:174-193 | no value appears twice |
| ExerciseLibrary.OptionsEmpty | src/services/exerciseLibrary.ts:155-158 | a failed fetch or null answer gives no options |
| ExerciseLibrary.ScopeOf | src/services/exerciseLibrary.ts:55-62 | the owner filter is lifted exactly when the filter is unset, and the coach's own rows are added exactly for a non-empty id |
| ExerciseLibrary.CoachScopeSpec | src/services/exerciseLibrary.ts:55-62 | the admitted owners are any with no filter; system and that coach with an id; system only with null or "" |
| ExerciseLibrary.NoFiltersAdmitAll | src/services/exerciseLibrary.ts:30-62 | a search with no filters admits every row |
| ExerciseLibrary.ScopesNested | src/services/exerciseLibrary.ts:55-62 | the scopes narrow from none to own to system only |
| AiChat.Title | src/services/aiChat.ts:134-136 | a message over 60 characters is cut to 57 plus "...", so the title has at most 60 characters |
| AiChat.TitlePrefix | src/services/aiChat.ts:134-136 | the title starts with the message or its first 57 characters |
| AiChat.TitleIdempotent | src/services/aiChat.ts:134-136 | a title is its own title |
| AiChat.TitleChangesOnlyLong | src/services/aiChat.ts:134-136 | the title differs from the message exactly when the message is over 60 characters |
| AiChat.UpdateTitle | src/services/aiChat.ts:133-142 | the session's row gets the title, and every other row is unchanged |
| AiChat.ClearTitle | src/services/aiChat.ts:123-127 | the session's title is cleared, and other rows are unchanged |
| AiChat.ClearSession | src/services/aiChat.ts:110-128 | a delete error is thrown with its message and nothing changes; otherwise the session's title is cleared and every row keeps its id |
| AiChat.UpdateTitleIdempotent | src/services/aiChat.ts:133-142 | retitling twice is retitling once, and clearing after a retitle is clearing |
| AiChat.GetOrCreateSession | src/services/aiChat.ts:14-50 | the select's error is thrown; otherwise the newest existing session, else the insert's answer, its error included |
| Notifications.UnreadNotifications | src/stores/notifications.ts:38-40 | a notification is listed exactly when it is in the list and unread |
| Notifications.UnreadSpec | src/stores/notifications.ts:34-40 | the count is the length of the unread list, at most the list length, and 0 exactly when all are read |
| Notifications.FetchNotifications | src/stores/notifications.ts:43-74 | the rows replace the list with normalised actors; an error keeps the list and records it |
| Notifications.MarkAsRead | src/stores/notifications.ts:76-92 | the list keeps its length, and a failed update changes nothing |
| Notifications.MarkAsReadSpec | src/stores/notifications.ts:85-88 | only the first entry with the id changes, and it ends up read |
| Notifications.MarkAsReadCount | src/stores/notifications.ts:76-92 | the unread count drops by one when the entry was unread, else stays |
| Notifications.MarkAllAsRead | src/stores/notifications.ts:94-112 | nothing is sent when nothing is unread; otherwise the unread ids are sent; a failed update changes nothing, and only read flags ever change |
| Notifications.MarkAllAsReadSpec | src/stores/notifications.ts:94-112 | afterwards nothing is unread, and a second call sends nothing |
| Notifications.DeleteNotification | src/stores/notifications.ts:114-127 | a failed delete changes nothing; otherwise a notification stays exactly when it was listed under another id |
| Notifications.DeleteKeepsOthers | src/stores/notifications.ts:123 | the list shrinks by the number of entries with the id, and a list without it is unchanged |
| Notifications.OnInsert | src/stores/notifications.ts:144-167 | a fetched notification goes to the front; a failed fetch adds nothing |
| Notifications.OnInsertCount | src/stores/notifications.ts:160-166 | an unread arrival raises the unread count by one |
| Notifications.Subscribe | src/stores/notifications.ts:129-170 | any open channel is replaced by the user's channel |
| Notifications.Unsubscribe | src/stores/notifications.ts:172-177 | the channel is closed |
| Notifications.Reset | src/stores/notifications.ts:179-184 | an empty list, not loading, no error, no channel, so nothing unread |
| Text.ParseIntShowNat | src/services/athleteHistory.ts:124 | `parseInt` reads back `String(n)` and stops at the first non-digit |
| Text.RepsValueLeadingNumber | src/services/adaptive.ts:155 | a rep text starting with a number counts as that number |
| Text.RepsValueWord | src/services/planAnalytics.ts:76 | "AMRAP" counts as 0 |
| Text.RepsValueMissing | src/services/athleteHistory.ts:124 | a missing or empty rep text counts as 0 |
| Text.RepsValueNonNegative | src/services/adaptive.ts:339 | a rep text without a minus sign never counts negative |
| Text.Pad2 | src/services/athleteHistory.ts:251 | the number padded to two digits |
| Text.SortDistinct | src/services/exerciseLibrary.ts:168 | every value once, in the default string order |
| Sorting.SortMap | src/services/plans.ts:96-102 | sorting after a key-preserving map is mapping the sorted rows |
| Sorting.StableOrder | src/services/plans.ts:96 | the sort is stable: equal keys keep their input order |
| Grouping.GroupBy | src/services/planAnalytics.ts:186-212 | the groups come in first-seen key order, each key once, each group holding exactly its key's rows in order |
| Grouping.FoldByKeySpec | src/services/athleteHistory.ts:114-139 | the accumulation loop gives one entry per key, in first-seen order, holding the fold of that key's rows |
| Common.Normalize | src/services/groups.ts:26-27 | a relation normalises to its row, its array's first row, or null |

## Left out

- All Supabase I/O: query building, filters, ordering, ranges, counts, the `ilike` name search, inserts, updates and upserts. Fetched rows are inputs, and writes are returned records or outcome values.
- The clock and the time zone, apart from the two day-difference findings below. `new Date()`, `toISOString()` and local `getDay`/`setDate` become day-number parameters, and ISO weeks are computed on civil dates.
- Parallelism: `Promise.all` in `getSuggestionsForPlan` is sequential concatenation. Each check's `try/catch` becomes "a failed fetch contributes nothing".
- Human text: suggestion titles, descriptions and rationales, changelog summaries and notification messages. Suggestions carry their structured recommendation payloads, and the readiness rationale is its score plus its factor list.
- Number formatting: `toFixed` inside text, and the readiness rationale's string join.
- IEEE-754 arithmetic. Numbers are exact reals.
- Text encoding:
  - JavaScript string lengths are UTF-16 units and the default sort compares them; the model uses characters and character codes.
  - `toLowerCase` is modelled for ASCII letters only, so special cases such as U+0130 or U+212A are not covered.
- The overload check's completions query filters on `workout_id`, which `workout_completions` does not have (src/types/database.ts), so in practice the check sees no completions. The model takes the fetched rows as given.
- `exercise_result_id` in the personal-best upsert holds the completion id. It is recorded as written, without comment.
- `updatePersonalBests` catches every error. Its failure cannot change the completion's outcome, so the model leaves it out.
- The progressive-overload check visits every result of up to five completions; results are not de-duplicated per exercise.
- `applyTemplate` creates each block through `createBlock`, which also creates that block's weeks. The weeks are covered by `Plans.CreateBlockWeeks`; the template outcome only lists the block inserts. The week insert's own error is only logged, so it is left out.
- `loadPlan` on a null plan cannot happen: `.single()` reports an error instead, and the model reads that error as the failure path.
- Operations outside the modelled logic, which are thin CRUD or pure I/O:
  - `getPbsByBlock`, `getAthleteCompletions`, `logSuggestion`, `getWeekAssignments`, `getChangelog` and `getPlanBlocks`;
  - the plan, block and week CRUD, and `getTemplates`, `getCoachGroups` and `getSports`;
  - the group and team CRUD and the member upsert;
  - the exercise CRUD;
  - `saveMessage` and `getMessages`;
  - the assignment list and date-range queries, and `getStreak`.
- The auth session lifecycle (`initialize`, `signUp`, `signIn`, `signOut`, `fetchProfile`), apart from the username sanitiser.
- The router's wait for the auth store to finish loading.
- The mobile tab state of the plan store.
- The realtime channel itself. Its handler is modelled as `OnInsert`, which prepends the fetched row even when an entry with that id is already listed, as the source does.
- The `status in counts` test of `planStatusCounts` also accepts keys inherited from the object prototype. Plan statuses are modelled as the four known values plus "other".
- `instanceof Error` tests in the stores' error handlers: a failure's message is taken as given.

## Findings

| source | as written | input that shows it | evidently intended | confidence | as-written member | corrected member |
|---|---|---|---|---|---|---|
| src/utils/streaks.ts:24-28 | the day difference parses both dates as local midnight and floors the millisecond gap over 24 hours | in a zone whose clocks go forward at 02:00, last workout on the day of the switch and the next workout on the following day: the local midnights are 23 hours apart, the floor is 0, and the streak is left unchanged as if already logged today | the difference in calendar days, so the next day extends the streak | not executed | Streaks.SpringForwardLosesDay | Streaks.ReplayConsecutive |
| src/services/groups.ts:274-283 | the start date parses as UTC midnight; `setDate` moves the local calendar date, and `toISOString` takes the UTC date back | in a zone one hour ahead of UTC that moves to two hours on day 100, a program starting on day 95 with a week-2 Monday session (offset 7) gets day 101 instead of 102 | the start day plus the day offset | not executed | Groups.SummerTimeShiftsDate | Groups.GroupAssignmentAt |
