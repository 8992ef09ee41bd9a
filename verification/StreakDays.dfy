/** The streak cache of one habit against its log, on day numbers. `Habits` shows that the
    app's string-keyed state refines this. */
module StreakDays {
  import opened Wrappers

  datatype Streak = Streak(current: int, best: int, last: Option<int>)

  /** One habit: the set of logged days, and the incrementally kept streak. */
  datatype Habit = Habit(log: set<int>, streak: Streak)

  const NO_STREAK := Streak(0, 0, None)
  const NEW_HABIT := Habit({}, NO_STREAK)

  function Record(s: Streak, day: int): Streak {
    var current :=
      if s.last == Some(day - 1) then s.current + 1
      else if s.last == Some(day) then s.current
      else 1;
    Streak(current, if current > s.best then current else s.best, Some(day))
  }

  function Remove(s: Streak, day: int): Streak {
    if s.last == Some(day) && s.current > 0
    then Streak(s.current - 1, s.best, Some(day - 1))
    else s
  }

  function Toggle(h: Habit, day: int): Habit {
    if day in h.log
    then Habit(h.log - {day}, Remove(h.streak, day))
    else Habit(h.log + {day}, Record(h.streak, day))
  }

  /** The habit after toggling `days` in order, starting from nothing. */
  function Run(days: seq<int>): Habit {
    if days == [] then NEW_HABIT
    else Toggle(Run(days[..|days| - 1]), days[|days| - 1])
  }

  // ----- What the cache should say ------------------------------------------------------

  /** `n` logged days in a row, the last of them `end`. */
  ghost predicate Block(log: set<int>, end: int, n: int) {
    0 <= n && forall x :: end - n < x <= end ==> x in log
  }

  /** Exactly `n`: the row cannot be made longer. */
  ghost predicate StreakEnding(log: set<int>, end: int, n: int) {
    Block(log, end, n) && end - n !in log
  }

  /** The cache agrees with the log: nothing logged is later than the last date, and `current`
      counts the logged days in a row ending there. */
  ghost predicate Agrees(h: Habit) {
    match h.streak.last
    case None => h.log == {} && h.streak.current == 0
    case Some(last) =>
      (forall x :: x in h.log ==> x <= last) && StreakEnding(h.log, last, h.streak.current)
  }

  /** The toggles that do no damage, as a check on the state before the call. Recording: a day
      after the last date, or a day before it that is later than everything logged and not the
      successor of a logged day; never the last date itself. Removing: the last date, or a
      day before the current streak. */
  ghost predicate Harmless(h: Habit, day: int) {
    match h.streak.last
    case None => true
    case Some(last) =>
      if day in h.log then day == last || day < last - h.streak.current
      else day > last || (day < last && day - 1 !in h.log && forall x :: x in h.log ==> x < day)
  }

  /** The exact domain of the cache: from an agreeing state, a toggle of any day keeps the
      agreement if and only if it is harmless. */
  lemma {:induction false} ToggleKeepsAgreementExactly(h: Habit, day: int)
    requires Agrees(h)
    ensures Agrees(Toggle(h, day)) <==> Harmless(h, day)
  {
    var after := Toggle(h, day);
    if h.streak.last.Some? {
      var last, n := h.streak.last.value, h.streak.current;
      if day in h.log {
        if day == last {
          assert n > 0 by {
            assert last - 0 in h.log;
          }
          assert StreakEnding(after.log, last - 1, n - 1);
        } else if day < last - n {
          assert StreakEnding(after.log, last, n);
        } else {
          assert day > last - n;
          assert !Block(after.log, last, n);
        }
      } else if day == last {
        assert n == 0;
        assert day in after.log;
      } else if day > last {
        if day == last + 1 {
          assert StreakEnding(after.log, day, n + 1);
        } else {
          assert StreakEnding(after.log, day, 1);
        }
      } else if Harmless(h, day) {
        assert StreakEnding(after.log, day, 1);
      }
    } else {
      assert StreakEnding(after.log, day, 1);
    }
  }

  /** A streak length is determined by the log and the end day. */
  lemma {:induction false} StreakEndingUnique(log: set<int>, end: int, m: int, n: int)
    requires StreakEnding(log, end, m) && StreakEnding(log, end, n)
    ensures m == n
  {
    assert m < n ==> end - n < end - m <= end;
    assert n < m ==> end - m < end - n <= end;
  }

  // ----- Runs of toggles on a non-decreasing clock --------------------------------------

  ghost predicate NonDecreasing(days: seq<int>) {
    forall i, j :: 0 <= i < j < |days| ==> days[i] <= days[j]
  }

  /** Agreement, and the fact that rules out the harmful toggle of the last date: when the clock
      stands at the last date, that date is logged. */
  ghost predicate UpToDate(h: Habit, now: int) {
    Agrees(h)
    && (h.streak.last.Some? ==> h.streak.last.value <= now && (h.streak.last.value == now ==> now in h.log))
  }

  lemma {:induction false} ToggleTodayStaysUpToDate(h: Habit, now: int, today: int)
    requires UpToDate(h, now) && now <= today
    ensures Harmless(h, today)
    ensures UpToDate(Toggle(h, today), today)
  {
    ToggleKeepsAgreementExactly(h, today);
  }

  lemma {:induction false} TodayRunUpToDate(days: seq<int>)
    requires NonDecreasing(days) && |days| > 0
    ensures UpToDate(Run(days), days[|days| - 1])
  {
    var before := days[..|days| - 1];
    if before != [] {
      TodayRunUpToDate(before);
    }
    ToggleTodayStaysUpToDate(Run(before),
      if before == [] then days[|days| - 1] else before[|before| - 1], days[|days| - 1]);
  }

  /** Every run of toggles of "today" on a clock that never goes back keeps the cache right. */
  lemma {:induction false} TodayRunAgrees(days: seq<int>)
    requires NonDecreasing(days)
    ensures Agrees(Run(days))
  {
    if days != [] {
      TodayRunUpToDate(days);
    }
  }

  /** Back-dating breaks it: record a day, undo it, then record the day before. The day is
      logged but the streak is 0. */
  lemma {:induction false} BackdatingBreaksAgreement(day: int)
    ensures Run([day, day, day - 1]) == Habit({day - 1}, Streak(0, 1, Some(day - 1)))
    ensures !Agrees(Run([day, day, day - 1]))
  {
    var days := [day, day, day - 1];
    assert days[..2][..1] == days[..1] == [day] && days[..1][..0] == [];
    assert Run(days[..1]) == Toggle(NEW_HABIT, day) == Habit({day}, Streak(1, 1, Some(day)));
    assert Run(days[..2]) == Toggle(Run(days[..1]), day);
    assert Run(days[..2]) == Habit({}, Streak(0, 1, Some(day - 1)));
    assert Run(days) == Toggle(Run(days[..2]), day - 1);
    assert (day - 1) - 0 in Run(days).log;
  }

  // ----- The best streak ----------------------------------------------------------------

  /** Whatever is toggled, and in whatever order: `best` covers `current` and never drops. */
  lemma {:induction false} BestNeverDrops(days: seq<int>, i: nat)
    requires i <= |days|
    ensures 0 <= Run(days[..i]).streak.best <= Run(days).streak.best
    ensures 0 <= Run(days).streak.current <= Run(days).streak.best
  {
    if days != [] {
      var before := days[..|days| - 1];
      if i < |days| {
        BestNeverDrops(before, i);
        assert before[..i] == days[..i];
      } else {
        BestNeverDrops(before, |before|);
        assert days[..i] == days;
      }
    } else {
      assert days[..i] == [];
    }
  }

  /** Some state of the run, so far or earlier, held `n` logged days in a row. */
  ghost predicate EverHeld(days: seq<int>, n: int) {
    exists i, end :: 0 <= i <= |days| && Block(Run(days[..i]).log, end, n)
  }

  /** A block of the new log either was there before or is the current streak. */
  lemma {:induction false} NewBlock(h: Habit, now: int, today: int, end: int, n: int)
    requires UpToDate(h, now) && now <= today
    requires Block(Toggle(h, today).log, end, n)
    ensures Block(h.log, end, n) || n <= Toggle(h, today).streak.current
  {
    var after := Toggle(h, today);
    ToggleTodayStaysUpToDate(h, now, today);
    if !Block(h.log, end, n) {
      assert today !in h.log;
      assert n > 0 && end in after.log;
      assert end == today;
      assert today - after.streak.current !in after.log;
    }
  }

  lemma {:induction false} NoLongerThanBest(days: seq<int>, i: nat, end: int, n: int)
    requires NonDecreasing(days) && i <= |days|
    requires Block(Run(days[..i]).log, end, n)
    ensures n <= Run(days).streak.best
    decreases |days|
  {
    if days == [] {
      assert days[..i] == [] && end !in Run([]).log;
    } else {
      var before, today := days[..|days| - 1], days[|days| - 1];
      var now := if before == [] then today else before[|before| - 1];
      if before != [] {
        TodayRunUpToDate(before);
      }
      BestNeverDrops(days, |days| - 1);
      if i < |days| {
        assert before[..i] == days[..i];
        NoLongerThanBest(before, i, end, n);
      } else {
        assert days[..i] == days;
        NewBlock(Run(before), now, today, end, n);
        if Block(Run(before).log, end, n) {
          assert before[..|before|] == before;
          NoLongerThanBest(before, |before|, end, n);
        }
      }
    }
  }

  lemma {:induction false} BestWasHeld(days: seq<int>)
    requires NonDecreasing(days)
    ensures EverHeld(days, Run(days).streak.best)
  {
    if days == [] {
      assert Block(Run(days[..0]).log, 0, 0);
    } else {
      var before, today := days[..|days| - 1], days[|days| - 1];
      if Run(days).streak.best == Run(before).streak.best {
        BestWasHeld(before);
        var i, end :| 0 <= i <= |before| && Block(Run(before[..i]).log, end, Run(before).streak.best);
        assert before[..i] == days[..i];
        assert Block(Run(days[..i]).log, end, Run(days).streak.best);
      } else {
        TodayRunUpToDate(days);
        assert days[..|days|] == days;
        assert Block(Run(days[..|days|]).log, today, Run(days).streak.best);
      }
    }
  }

  /** On a clock that never goes back, `best` is the maximum, over all states of the run, of the
      number of logged days in a row. */
  lemma {:induction false} BestIsHistoricMaximum(days: seq<int>)
    requires NonDecreasing(days)
    ensures EverHeld(days, Run(days).streak.best)
    ensures forall n :: EverHeld(days, n) ==> n <= Run(days).streak.best
  {
    BestWasHeld(days);
    forall n | EverHeld(days, n) ensures n <= Run(days).streak.best {
      var i, end :| 0 <= i <= |days| && Block(Run(days[..i]).log, end, n);
      NoLongerThanBest(days, i, end, n);
    }
  }

  /** Out of order it need not be, although no day is toggled twice: a day filled in between two
      others joins them into a row of three, and `best` stays 1. */
  lemma {:induction false} FillingAGapHidesBest(day: int)
    ensures Run([day, day + 2, day + 1]) == Habit({day, day + 1, day + 2}, Streak(1, 1, Some(day + 1)))
    ensures Block(Run([day, day + 2, day + 1]).log, day + 2, 3)
  {
    var days := [day, day + 2, day + 1];
    assert days[..2][..1] == days[..1] == [day] && days[..1][..0] == [];
    assert Run(days[..1]) == Toggle(NEW_HABIT, day) == Habit({day}, Streak(1, 1, Some(day)));
    assert Run(days[..2]) == Toggle(Run(days[..1]), day + 2) == Habit({day, day + 2}, Streak(1, 1, Some(day + 2)));
    assert Run(days) == Toggle(Run(days[..2]), day + 1);
  }

  ghost predicate Increasing(days: seq<int>) {
    forall i, j :: 0 <= i < j < |days| ==> days[i] < days[j]
  }

  lemma {:induction false} WithoutRemovalsLogIsAll(days: seq<int>)
    requires Increasing(days)
    ensures forall x :: x in Run(days).log <==> x in days
  {
    if days != [] {
      var before, today := days[..|days| - 1], days[|days| - 1];
      WithoutRemovalsLogIsAll(before);
      assert days == before + [today];
      assert today !in before;
    }
  }

  /** On a forward clock with no day toggled twice, nothing is ever removed and `best` is the longest
      row of logged days in the log as it stands. */
  lemma {:induction false} BestIsLongestWithoutRemovals(days: seq<int>)
    requires Increasing(days)
    ensures exists end :: Block(Run(days).log, end, Run(days).streak.best)
    ensures forall end, n :: Block(Run(days).log, end, n) ==> n <= Run(days).streak.best
  {
    BestIsHistoricMaximum(days);
    var i, end :| 0 <= i <= |days| && Block(Run(days[..i]).log, end, Run(days).streak.best);
    WithoutRemovalsLogIsAll(days);
    WithoutRemovalsLogIsAll(days[..i]);
    forall x | end - Run(days).streak.best < x <= end ensures x in Run(days).log {
      assert x in days[..i];
    }
    assert Block(Run(days).log, end, Run(days).streak.best);
    forall e, n | Block(Run(days).log, e, n) ensures n <= Run(days).streak.best {
      assert days[..|days|] == days;
      NoLongerThanBest(days, |days|, e, n);
    }
  }
}
