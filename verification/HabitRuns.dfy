/** What the one-habit results of `StreakDays` say of the provider's own string-keyed state: exactly
    when a toggle keeps cache and log together, and what the best streak is over a run. */
module HabitRuns {
  import opened Wrappers
  import opened Calendar
  import opened Keys
  import opened Habits
  import Days = StreakDays

  // ----- Agreement read off the provider ------------------------------------------------

  lemma {:induction false} LoggedDay(
      logs: map<string, DayLog>, habitId: string, days: set<int>, day: int) returns (d: Date)
    requires LogIs(logs, habitId, days) && day in days
    ensures d.Valid() && Ordinal(d) == day && Done(logs, habitId, d)
  {
    d := EveryDayHasADate(day);
    DoneIsLogged(logs, habitId, days, d);
  }

  lemma {:induction false} MatchEndsAt(s: State, habitId: string, h: Days.Habit, last: Date)
    requires Represents(s, habitId, h) && last.Valid() && h.streak.last == Some(Ordinal(last))
    requires EndsAt(s.logs, habitId, last, h.streak.current)
    ensures Days.Agrees(h)
  {
    hide Ordinal, Done;
    var end, n := Ordinal(last), h.streak.current;
    forall x | x in h.log ensures x <= end {
      var d := LoggedDay(s.logs, habitId, h.log, x);
      assert NotAfter(d, last);
    }
    forall x | end - n < x <= end ensures x in h.log {
      BackIsDaysEarlier(last, end - x);
      DoneIsLogged(s.logs, habitId, h.log, Back(last, end - x));
    }
    BackIsDaysEarlier(last, n);
    DoneIsLogged(s.logs, habitId, h.log, Back(last, n));
  }

  /** The provider's cache matches its log if and only if the one-habit state it represents agrees. */
  lemma {:induction false} MatchIsAgreement(s: State, habitId: string, h: Days.Habit)
    requires Represents(s, habitId, h)
    ensures CacheMatchesLog(s, habitId) <==> Days.Agrees(h)
  {
    hide Ordinal, Done, DateStr;
    var c := GetStreak(s.streaks, habitId);
    if Days.Agrees(h) {
      AgreementReadsBack(s, habitId, h);
    }
    if CacheMatchesLog(s, habitId) {
      if c.lastDate.None? {
        forall x ensures x !in h.log {
          if x in h.log {
            var d := LoggedDay(s.logs, habitId, h.log, x);
          }
        }
        assert h.log == {};
      } else {
        var last: Date :| last.Valid() && c.lastDate == Some(DateStr(last)) && EndsAt(s.logs, habitId, last, c.current);
        SameStringSameDay(c.lastDate, h.streak.last, last);
        MatchEndsAt(s, habitId, h, last);
      }
    }
  }

  // ----- The exact domain of a toggle ---------------------------------------------------

  /** The harmless toggles when the cache's last date is `last`. Recording: a date after it, or one
      before it that is later than everything logged and does not follow a logged date; never
      `last` itself. Removing: `last`, or a date before the current streak. */
  ghost predicate HarmlessAfter(s: State, habitId: string, date: Date, last: Date)
    requires date.Valid() && last.Valid()
  {
    if Done(s.logs, habitId, date) then
      date == last || Ordinal(date) < Ordinal(last) - GetStreak(s.streaks, habitId).current
    else
      Ordinal(date) > Ordinal(last) || (Ordinal(date) < Ordinal(last) && LaterThanLogged(s.logs, habitId, date))
  }

  ghost predicate LaterThanLogged(logs: map<string, DayLog>, habitId: string, date: Date)
    requires date.Valid()
  {
    !Done(logs, habitId, Prev(date)) && forall d: Date :: d.Valid() && Done(logs, habitId, d) ==> Ordinal(d) < Ordinal(date)
  }

  /** A check on the provider's state before the call. */
  ghost predicate HarmlessTap(s: State, habitId: string, date: Date)
    requires date.Valid()
  {
    match GetStreak(s.streaks, habitId).lastDate
    case None => true
    case Some(str) => exists last: Date :: last.Valid() && str == DateStr(last) && HarmlessAfter(s, habitId, date, last)
  }

  lemma {:induction false} LaterThanLoggedReads(logs: map<string, DayLog>, habitId: string, days: set<int>, date: Date)
    requires LogIs(logs, habitId, days) && date.Valid()
    ensures LaterThanLogged(logs, habitId, date) <==>
            Ordinal(date) - 1 !in days && forall x :: x in days ==> x < Ordinal(date)
  {
    PrevIsOneDayEarlier(date);
    hide Ordinal, Done, Prev;
    DoneIsLogged(logs, habitId, days, Prev(date));
    if forall x :: x in days ==> x < Ordinal(date) {
      forall d: Date | d.Valid() && Done(logs, habitId, d) ensures Ordinal(d) < Ordinal(date) {
        DoneIsLogged(logs, habitId, days, d);
      }
    }
    if LaterThanLogged(logs, habitId, date) {
      forall x | x in days ensures x < Ordinal(date) {
        var d := LoggedDay(logs, habitId, days, x);
      }
    }
  }

  lemma {:induction false} HarmlessReads(s: State, habitId: string, h: Days.Habit, date: Date)
    requires Represents(s, habitId, h) && date.Valid()
    ensures HarmlessTap(s, habitId, date) <==> Days.Harmless(h, Ordinal(date))
  {
    var c := GetStreak(s.streaks, habitId);
    DoneIsLogged(s.logs, habitId, h.log, date);
    LaterThanLoggedReads(s.logs, habitId, h.log, date);
    hide Ordinal, Done, DateStr, LaterThanLogged;
    if c.lastDate.Some? {
      forall last: Date | last.Valid() && c.lastDate == Some(DateStr(last))
        ensures HarmlessAfter(s, habitId, date, last) <==> Days.Harmless(h, Ordinal(date))
      {
        SameStringSameDay(c.lastDate, h.streak.last, last);
        if Ordinal(date) == Ordinal(last) {
          OrdinalInjective(date, last);
        }
      }
      var last: Date :| last.Valid() && c.lastDate == Some(DateStr(last));
    }
  }

  /** The exact domain of the cache, on the provider's own state: after any run of toggles, on any
      clock, that leaves a habit's cache matching its log, toggling any date of it keeps the match
      if and only if the toggle is harmless. */
  lemma {:induction false} ToggleKeepsMatchExactly(taps: seq<Tap>, habitId: string, date: Date)
    requires ValidTaps(taps) && date.Valid() && CacheMatchesLog(Replay(taps), habitId)
    ensures CacheMatchesLog(Toggled(Replay(taps), habitId, date), habitId) <==> HarmlessTap(Replay(taps), habitId, date)
  {
    hide Represents, CacheMatchesLog, HarmlessTap, Replay, Toggled, Ordinal, Days.Toggle, Days.Agrees, Days.Harmless;
    var s, h := Replay(taps), Days.Run(DaysOf(taps, habitId));
    ReplayRefinesEachHabit(taps, habitId);
    ToggleRefines(s, habitId, date, h);
    MatchIsAgreement(s, habitId, h);
    MatchIsAgreement(Toggled(s, habitId, date), habitId, Days.Toggle(h, Ordinal(date)));
    Days.ToggleKeepsAgreementExactly(h, Ordinal(date));
    HarmlessReads(s, habitId, h, date);
  }

  // ----- The best streak ----------------------------------------------------------------

  /** `n` logged dates in a row, the last of them `end`. */
  ghost predicate Row(logs: map<string, DayLog>, habitId: string, end: Date, n: nat) {
    forall i: nat :: i < n ==> Done(logs, habitId, Back(end, i))
  }

  /** Some state of the run, the first and the last included, showed `n` logged dates in a row. */
  ghost predicate EverShown(taps: seq<Tap>, habitId: string, n: nat) {
    exists i, end: Date :: 0 <= i <= |taps| && end.Valid() && Row(Replay(taps[..i]).logs, habitId, end, n)
  }

  function Best(s: State, habitId: string): int {
    GetStreak(s.streaks, habitId).best
  }

  lemma {:induction false} RowIsBlock(logs: map<string, DayLog>, habitId: string, days: set<int>, end: Date, n: nat)
    requires LogIs(logs, habitId, days) && end.Valid()
    ensures Row(logs, habitId, end, n) <==> Days.Block(days, Ordinal(end), n)
  {
    hide Ordinal, Done;
    forall i: nat ensures Done(logs, habitId, Back(end, i)) <==> Ordinal(end) - i in days {
      BackIsDaysEarlier(end, i);
      DoneIsLogged(logs, habitId, days, Back(end, i));
    }
    if Row(logs, habitId, end, n) {
      forall x | Ordinal(end) - n < x <= Ordinal(end) ensures x in days {
        var i: nat := Ordinal(end) - x;
        assert Done(logs, habitId, Back(end, i));
      }
    }
  }

  lemma {:induction false} DaysOfPrefix(taps: seq<Tap>, habitId: string, i: nat)
    requires ValidTaps(taps) && i <= |taps|
    ensures DaysOf(taps[..i], habitId) <= DaysOf(taps, habitId)
  {
    hide Ordinal;
    if i < |taps| {
      var before := taps[..|taps| - 1];
      DaysOfPrefix(before, habitId, i);
      assert before[..i] == taps[..i];
    } else {
      assert taps[..i] == taps;
    }
  }

  lemma {:induction false} PrefixReached(taps: seq<Tap>, habitId: string, j: nat) returns (i: nat)
    requires ValidTaps(taps) && j <= |DaysOf(taps, habitId)|
    ensures i <= |taps| && DaysOf(taps[..i], habitId) == DaysOf(taps, habitId)[..j]
  {
    hide Ordinal;
    var all := DaysOf(taps, habitId);
    if j == |all| {
      i := |taps|;
      assert taps[..i] == taps && all[..j] == all;
    } else {
      var before := taps[..|taps| - 1];
      i := PrefixReached(before, habitId, j);
      assert before[..i] == taps[..i] && DaysOf(before, habitId)[..j] == all[..j];
    }
  }

  lemma {:induction false} RunOfHabit(taps: seq<Tap>, habitId: string, i: nat)
    requires ValidTaps(taps) && i <= |taps|
    ensures var days := DaysOf(taps[..i], habitId);
            && LogIs(Replay(taps[..i]).logs, habitId, Days.Run(days).log)
            && Best(Replay(taps[..i]), habitId) == Days.Run(days).streak.best
            && GetStreak(Replay(taps[..i]).streaks, habitId).current == Days.Run(days).streak.current
  {
    hide Replay, Days.Run, LogIs;
    ReplayRefinesEachHabit(taps[..i], habitId);
  }

  /** Over every run of any toggles in any order: best covers the current streak and never drops. */
  lemma {:induction false} BestNeverDrops(taps: seq<Tap>, habitId: string, i: nat)
    requires ValidTaps(taps) && i <= |taps|
    ensures Best(Replay(taps[..i]), habitId) <= Best(Replay(taps), habitId)
    ensures 0 <= GetStreak(Replay(taps).streaks, habitId).current <= Best(Replay(taps), habitId)
  {
    hide Replay, Days.Run, DaysOf;
    assert taps[..|taps|] == taps;
    RunOfHabit(taps, habitId, i);
    RunOfHabit(taps, habitId, |taps|);
    DaysOfPrefix(taps, habitId, i);
    var days, before := DaysOf(taps, habitId), DaysOf(taps[..i], habitId);
    assert before == days[..|before|];
    Days.BestNeverDrops(days, |before|);
  }

  lemma {:induction false} ShownIsHeld(taps: seq<Tap>, habitId: string, n: nat)
    requires ValidTaps(taps)
    ensures EverShown(taps, habitId, n) <==> Days.EverHeld(DaysOf(taps, habitId), n)
  {
    hide Replay, Days.Run, DaysOf, Ordinal, Done, Row, Days.Block, LogIs;
    var days := DaysOf(taps, habitId);
    if EverShown(taps, habitId, n) {
      var i, end: Date :| 0 <= i <= |taps| && end.Valid() && Row(Replay(taps[..i]).logs, habitId, end, n);
      RunOfHabit(taps, habitId, i);
      DaysOfPrefix(taps, habitId, i);
      var before := DaysOf(taps[..i], habitId);
      assert before == days[..|before|];
      RowIsBlock(Replay(taps[..i]).logs, habitId, Days.Run(before).log, end, n);
      assert Days.Block(Days.Run(days[..|before|]).log, Ordinal(end), n);
    }
    if Days.EverHeld(days, n) {
      var j, day :| 0 <= j <= |days| && Days.Block(Days.Run(days[..j]).log, day, n);
      var i := PrefixReached(taps, habitId, j);
      var end := EveryDayHasADate(day);
      RunOfHabit(taps, habitId, i);
      RowIsBlock(Replay(taps[..i]).logs, habitId, Days.Run(days[..j]).log, end, n);
    }
  }

  /** On a clock that never goes back, a habit's best streak is the maximum, over all states of the
      run of toggles over any habits, of the number of logged dates in a row. */
  lemma {:induction false} BestIsLongestRowEver(taps: seq<Tap>, habitId: string)
    requires OnForwardClock(taps)
    ensures Best(Replay(taps), habitId) >= 0 && EverShown(taps, habitId, Best(Replay(taps), habitId))
    ensures forall n: nat :: EverShown(taps, habitId, n) ==> n <= Best(Replay(taps), habitId)
  {
    hide Replay, DaysOf, EverShown, Days.EverHeld, Days.Run;
    var days := DaysOf(taps, habitId);
    DaysOfForwardClock(taps, habitId);
    assert taps[..|taps|] == taps;
    RunOfHabit(taps, habitId, |taps|);
    BestNeverDrops(taps, habitId, |taps|);
    Days.BestIsHistoricMaximum(days);
    forall n: nat ensures EverShown(taps, habitId, n) <==> Days.EverHeld(days, n) {
      ShownIsHeld(taps, habitId, n);
    }
  }

  /** On a forward clock with no date toggled twice: each toggle of the habit is of a later date than
      the one before, so none undoes another. */
  ghost predicate NeverRetapped(taps: seq<Tap>, habitId: string) {
    ValidTaps(taps)
    && forall i, j :: 0 <= i < j < |taps| && taps[i].habitId == habitId == taps[j].habitId ==>
         Ordinal(taps[i].date) < Ordinal(taps[j].date)
  }

  ghost predicate TappedOn(taps: seq<Tap>, habitId: string, day: int)
    requires ValidTaps(taps)
  {
    exists i :: 0 <= i < |taps| && taps[i].habitId == habitId && Ordinal(taps[i].date) == day
  }

  lemma {:induction false} DaysAreTapped(taps: seq<Tap>, habitId: string, day: int)
    requires ValidTaps(taps) && day in DaysOf(taps, habitId)
    ensures TappedOn(taps, habitId, day)
  {
    hide Ordinal;
    var before, last := taps[..|taps| - 1], taps[|taps| - 1];
    if day in DaysOf(before, habitId) {
      DaysAreTapped(before, habitId, day);
      var i :| 0 <= i < |before| && before[i].habitId == habitId && Ordinal(before[i].date) == day;
      assert taps[i] == before[i];
    } else {
      assert last.habitId == habitId && Ordinal(last.date) == day;
    }
  }

  lemma {:induction false} DaysIncrease(taps: seq<Tap>, habitId: string)
    requires NeverRetapped(taps, habitId)
    ensures Days.Increasing(DaysOf(taps, habitId))
  {
    hide Ordinal;
    if taps != [] {
      var before, last := taps[..|taps| - 1], taps[|taps| - 1];
      DaysIncrease(before, habitId);
      var days := DaysOf(before, habitId);
      if last.habitId == habitId {
        forall k | 0 <= k < |days| ensures days[k] < Ordinal(last.date) {
          DaysAreTapped(before, habitId, days[k]);
          var i :| 0 <= i < |before| && before[i].habitId == habitId && Ordinal(before[i].date) == days[k];
          assert taps[i] == before[i];
        }
        hide DaysOf;
      }
    }
  }

  /** On a forward clock with no date of the habit toggled twice, best is the longest row of logged
      dates in the log as it stands. */
  lemma {:induction false} BestIsLongestRowNow(taps: seq<Tap>, habitId: string)
    requires NeverRetapped(taps, habitId)
    ensures Best(Replay(taps), habitId) >= 0
    ensures exists end: Date :: end.Valid() && Row(Replay(taps).logs, habitId, end, Best(Replay(taps), habitId))
    ensures forall end: Date, n: nat :: end.Valid() && Row(Replay(taps).logs, habitId, end, n) ==>
              n <= Best(Replay(taps), habitId)
  {
    hide Replay, DaysOf, Days.Run, Row, Days.Block, LogIs, Ordinal;
    DaysIncrease(taps, habitId);
    assert taps[..|taps|] == taps;
    RunOfHabit(taps, habitId, |taps|);
    BestNeverDrops(taps, habitId, |taps|);
    var days, logs := DaysOf(taps, habitId), Replay(taps).logs;
    Days.BestIsLongestWithoutRemovals(days);
    var day :| Days.Block(Days.Run(days).log, day, Days.Run(days).streak.best);
    var end := EveryDayHasADate(day);
    RowIsBlock(logs, habitId, Days.Run(days).log, end, Best(Replay(taps), habitId));
    forall e: Date, n: nat | e.Valid() && Row(logs, habitId, e, n) ensures n <= Best(Replay(taps), habitId) {
      RowIsBlock(logs, habitId, Days.Run(days).log, e, n);
    }
  }
}
