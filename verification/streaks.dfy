/**
 The daily workout-streak row (`user_streaks`) and the transition applied when
 a workout is logged. Dates are day numbers; `today` is the calendar date of
 the call. A row whose `last_workout_date` is null parses to an invalid date,
 so its day difference is NaN and matches neither 0 nor 1.
 */
module Streaks {
  import opened Common

  datatype StreakRow = StreakRow(currentStreak: int, longestStreak: int, lastWorkoutDate: Option<int>)

  /** Milliseconds in a day. */
  const Day: int := 1000 * 60 * 60 * 24

  /** Whole days from the last workout to today, or None for NaN. */
  function DiffDays(last: Option<int>, today: int): (d: Option<int>)
    ensures last.None? <==> d.None?
    ensures d.Some? ==> today == last.value + d.value
  {
    match last
    case None => None
    case Some(l) => Some(today - l)
  }

  /** The row after logging a workout today; `None` in, first row out. */
  function UpdateStreak(streak: Option<StreakRow>, today: int): (r: StreakRow)
    ensures streak.None? ==> r == StreakRow(1, 1, Some(today))
    ensures streak.Some? && DiffDays(streak.value.lastWorkoutDate, today) == Some(0) ==> r == streak.value
    ensures streak.Some? && DiffDays(streak.value.lastWorkoutDate, today) == Some(1) ==>
      && r.currentStreak == streak.value.currentStreak + 1
      && r.longestStreak == Max(streak.value.currentStreak + 1, streak.value.longestStreak)
      && r.lastWorkoutDate == Some(today)
    ensures streak.Some? && DiffDays(streak.value.lastWorkoutDate, today) !in {Some(0), Some(1)} ==>
      r == streak.value.(currentStreak := 1, lastWorkoutDate := Some(today))
    ensures r.lastWorkoutDate == Some(today)
  {
    match streak
    case None => StreakRow(1, 1, Some(today))
    case Some(s) =>
      var diff := DiffDays(s.lastWorkoutDate, today);
      if diff == Some(0) then s
      else if diff == Some(1) then
        var next := s.currentStreak + 1;
        s.(currentStreak := next, longestStreak := Max(next, s.longestStreak), lastWorkoutDate := Some(today))
      else s.(currentStreak := 1, lastWorkoutDate := Some(today))
  }

  function Max(a: int, b: int): (m: int)
    ensures m >= a && m >= b && (m == a || m == b)
  {
    if a >= b then a else b
  }

  /** A second workout on the same day changes nothing. */
  lemma UpdateStreakIdempotent(streak: Option<StreakRow>, today: int)
    ensures UpdateStreak(Some(UpdateStreak(streak, today)), today) == UpdateStreak(streak, today)
  {
  }

  /** The streak invariant: the current run is positive and never exceeds the longest. */
  predicate Consistent(s: StreakRow) {
    1 <= s.currentStreak <= s.longestStreak
  }

  lemma UpdateStreakConsistent(streak: Option<StreakRow>, today: int)
    requires streak.Some? ==> Consistent(streak.value)
    ensures Consistent(UpdateStreak(streak, today))
  {
  }

  /** The row after logging workouts on each of `days` in turn, starting without a row. */
  function Replay(days: seq<int>): Option<StreakRow> {
    if |days| == 0 then None
    else Some(UpdateStreak(Replay(days[..|days| - 1]), days[|days| - 1]))
  }

  /** Every row reached from the first insert satisfies the invariant. */
  lemma {:induction false} ReplayConsistent(days: seq<int>)
    ensures Replay(days).Some? ==> Consistent(Replay(days).value)
  {
    if |days| > 0 {
      ReplayConsistent(days[..|days| - 1]);
      UpdateStreakConsistent(Replay(days[..|days| - 1]), days[|days| - 1]);
    }
  }

  /** Logging on `n` consecutive days from scratch gives a streak of `n`. */
  lemma {:induction false} ReplayConsecutive(start: int, days: seq<int>)
    requires |days| > 0
    requires forall i :: 0 <= i < |days| ==> days[i] == start + i
    ensures Replay(days).Some? && Replay(days).value.currentStreak == |days|
    ensures Replay(days).value.longestStreak == |days|
  {
    if |days| > 1 {
      var p := days[..|days| - 1];
      ReplayConsecutive(start, p);
      assert Replay(p).value.lastWorkoutDate == Some(p[|p| - 1]);
    }
  }

  // ------------------------------------------------------------------
  // The day difference as written
  // ------------------------------------------------------------------

  /**
   The source parses both dates as local midnight and floors the millisecond
   difference over one day. `utcOffset(d)` is the zone's offset from UTC in
   milliseconds on day `d`; local midnight of day `d` is `d * Day - utcOffset(d)`.
   */
  function DiffDaysAsWritten(last: Option<int>, today: int, utcOffset: int -> int): Option<int> {
    match last
    case None => None
    case Some(l) => Some(((today * Day - utcOffset(today)) - (l * Day - utcOffset(l))) / Day)
  }

  function UpdateStreakAsWritten(streak: Option<StreakRow>, today: int, utcOffset: int -> int): StreakRow {
    match streak
    case None => StreakRow(1, 1, Some(today))
    case Some(s) =>
      var diff := DiffDaysAsWritten(s.lastWorkoutDate, today, utcOffset);
      if diff == Some(0) then s
      else if diff == Some(1) then
        var next := s.currentStreak + 1;
        s.(currentStreak := next, longestStreak := Max(next, s.longestStreak), lastWorkoutDate := Some(today))
      else s.(currentStreak := 1, lastWorkoutDate := Some(today))
  }

  /** In a zone without offset changes the written difference is the calendar difference. */
  lemma AsWrittenFixedOffset(last: Option<int>, today: int, utcOffset: int -> int)
    requires last.Some? ==> utcOffset(last.value) == utcOffset(today)
    ensures DiffDaysAsWritten(last, today, utcOffset) == DiffDays(last, today)
  {
    if last.Some? {
      var l := last.value;
      assert (today * Day - utcOffset(today)) - (l * Day - utcOffset(l)) == (today - l) * Day;
    }
  }

  /** The clock moves forward one hour between yesterday's and today's midnight (UTC+1 to UTC+2). */
  function SpringForward(d: int): int {
    if d >= 100 then 2 * 60 * 60 * 1000 else 60 * 60 * 1000
  }

  /**
   The clocks go forward at 02:00 on day 99, so day 99's midnight is still
   in the old offset and day 100's in the new one. The last workout was on
   day 99 and the next is on day 100: the local midnights are 23 hours apart,
   the floor is 0, and the streak is not extended.
   */
  lemma SpringForwardLosesDay()
    ensures DiffDaysAsWritten(Some(99), 100, SpringForward) == Some(0)
    ensures UpdateStreakAsWritten(Some(StreakRow(5, 5, Some(99))), 100, SpringForward) == StreakRow(5, 5, Some(99))
    ensures UpdateStreak(Some(StreakRow(5, 5, Some(99))), 100) == StreakRow(6, 6, Some(100))
  {
    assert (100 * Day - SpringForward(100)) - (99 * Day - SpringForward(99)) == 23 * 60 * 60 * 1000;
  }
}
