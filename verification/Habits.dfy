/** The habit provider: month logs and streak cache keyed by strings, and the proof that they
    refine, habit by habit, the day-number model of `StreakDays`. */
module Habits {
  import opened Wrappers
  import opened Calendar
  import opened Keys
  import Days = StreakDays

  /** Completed habit ids by day key: one month's `_entries`. */
  type DayLog = map<string, set<string>>

  datatype HabitStreak = HabitStreak(current: int, best: int, lastDate: Option<string>)

  const NO_STREAK := HabitStreak(0, 0, None)

  // ----- Specification on values --------------------------------------------------------

  function GetStreak(streaks: map<string, HabitStreak>, habitId: string): HabitStreak {
    if habitId in streaks then streaks[habitId] else NO_STREAK
  }

  function Recorded(streaks: map<string, HabitStreak>, habitId: string, date: Date): map<string, HabitStreak> {
    var s := GetStreak(streaks, habitId);
    var current :=
      if s.lastDate == Some(DateStr(Prev(date))) then s.current + 1
      else if s.lastDate == Some(DateStr(date)) then s.current
      else 1;
    streaks[habitId := HabitStreak(current, if current > s.best then current else s.best, Some(DateStr(date)))]
  }

  function Removed(streaks: map<string, HabitStreak>, habitId: string, date: Date): map<string, HabitStreak> {
    var s := GetStreak(streaks, habitId);
    if s.lastDate == Some(DateStr(date)) && s.current > 0
    then streaks[habitId := HabitStreak(s.current - 1, s.best, Some(DateStr(Prev(date))))]
    else streaks
  }

  function CompletedOn(log: DayLog, date: Date): set<string> {
    if DateKey(date) in log then log[DateKey(date)] else {}
  }

  function Flipped(log: DayLog, habitId: string, date: Date): DayLog {
    var ids := CompletedOn(log, date);
    log[DateKey(date) := if habitId in ids then ids - {habitId} else ids + {habitId}]
  }

  datatype State = State(logs: map<string, DayLog>, streaks: map<string, HabitStreak>)

  const EMPTY := State(map[], map[])

  function MonthLog(logs: map<string, DayLog>, date: Date): DayLog {
    var key := MonthKey(date.year, date.month);
    if key in logs then logs[key] else map[]
  }

  predicate Done(logs: map<string, DayLog>, habitId: string, date: Date) {
    habitId in CompletedOn(MonthLog(logs, date), date)
  }

  function Toggled(s: State, habitId: string, date: Date): State {
    State(
      s.logs[MonthKey(date.year, date.month) := Flipped(MonthLog(s.logs, date), habitId, date)],
      if Done(s.logs, habitId, date) then Removed(s.streaks, habitId, date) else Recorded(s.streaks, habitId, date))
  }

  // ----- The classes --------------------------------------------------------------------

  class HabitLog {
    const year: int
    const month: int
    var entries: DayLog

    constructor (year: int, month: int)
      ensures this.year == year && this.month == month && entries == map[]
    {
      this.year, this.month, entries := year, month, map[];
    }

    function CompletionsFor(date: Date): (ids: set<string>)
      reads this
      ensures forall id :: id in ids <==> DateKey(date) in entries && id in entries[DateKey(date)]
    {
      if DateKey(date) in entries then entries[DateKey(date)] else {}
    }

    predicate IsCompleted(habitId: string, date: Date)
      reads this
    {
      habitId in CompletionsFor(date)
    }

    method Toggle(habitId: string, date: Date) returns (nowCompleted: bool)
      modifies this
      ensures entries == Flipped(old(entries), habitId, date)
      ensures nowCompleted == IsCompleted(habitId, date) == !old(IsCompleted(habitId, date))
    {
      var key := DateKey(date);
      if key !in entries {
        entries := entries[key := {}];
      }
      var ids := entries[key];
      if habitId in ids {
        entries := entries[key := ids - {habitId}];
        return false;
      } else {
        entries := entries[key := ids + {habitId}];
        return true;
      }
    }
  }

  class StreakData {
    var streaks: map<string, HabitStreak>

    constructor ()
      ensures streaks == map[]
    {
      streaks := map[];
    }

    method RecordCompletion(habitId: string, date: Date)
      modifies this
      ensures streaks == Recorded(old(streaks), habitId, date)
    {
      var s := GetStreak(streaks, habitId);
      var dateStr := DateStr(date);
      var yesterday := DateStr(Prev(date));
      var newCurrent;
      if s.lastDate == Some(yesterday) {
        newCurrent := s.current + 1;
      } else if s.lastDate == Some(dateStr) {
        newCurrent := s.current;
      } else {
        newCurrent := 1;
      }
      var newBest := if newCurrent > s.best then newCurrent else s.best;
      streaks := streaks[habitId := HabitStreak(newCurrent, newBest, Some(dateStr))];
    }

    method RemoveCompletion(habitId: string, date: Date)
      modifies this
      ensures streaks == Removed(old(streaks), habitId, date)
    {
      var s := GetStreak(streaks, habitId);
      if s.lastDate == Some(DateStr(date)) && s.current > 0 {
        streaks := streaks[habitId := HabitStreak(s.current - 1, s.best, Some(DateStr(Prev(date))))];
      }
    }
  }

  class HabitsProvider {
    var logs: map<string, HabitLog>
    const streaks: StreakData

    /** No two months share a log object. */
    ghost predicate Valid()
      reads this
    {
      forall k1, k2 :: k1 in logs && k2 in logs && logs[k1] == logs[k2] ==> k1 == k2
    }

    ghost function Entries(): map<string, DayLog>
      reads this, logs.Values
    {
      map k | k in logs :: logs[k].entries
    }

    ghost function Contents(): State
      reads this, streaks, logs.Values
    {
      State(Entries(), streaks.streaks)
    }

    constructor ()
      ensures Valid() && Contents() == EMPTY && fresh(streaks)
    {
      logs := map[];
      streaks := new StreakData();
    }

    method GetLogForDate(date: Date) returns (log: HabitLog)
      requires Valid()
      ensures Valid() && Contents() == old(Contents())
      ensures log.entries == MonthLog(Contents().logs, date)
      ensures var key := MonthKey(date.year, date.month); if key in logs then log == logs[key] else fresh(log)
    {
      var key := MonthKey(date.year, date.month);
      if key in logs {
        log := logs[key];
      } else {
        log := new HabitLog(date.year, date.month);
      }
    }

    method IsCompleted(habitId: string, date: Date) returns (completed: bool)
      requires Valid()
      ensures Contents() == old(Contents())
      ensures completed == Done(Contents().logs, habitId, date)
    {
      var log := GetLogForDate(date);
      completed := log.IsCompleted(habitId, date);
    }

    /** The log under `key`, put into the map if it was absent. */
    method PutIfAbsent(key: string, date: Date) returns (log: HabitLog)
      requires Valid()
      modifies this
      ensures Valid() && logs == old(logs)[key := log]
      ensures if key in old(logs) then log == old(logs)[key] else fresh(log)
      ensures log.entries == if key in old(logs) then old(Entries())[key] else map[]
      ensures Entries() == old(Entries())[key := log.entries]
    {
      if key !in logs {
        log := new HabitLog(date.year, date.month);
        logs := logs[key := log];
      } else {
        log := logs[key];
      }
    }

    /** Flips the pair in the log stored under `key`; the other months' logs stay as they are. */
    method FlipIn(key: string, log: HabitLog, habitId: string, date: Date)
      requires Valid() && key in logs && logs[key] == log
      modifies log
      ensures Entries() == old(Entries())[key := Flipped(old(log.entries), habitId, date)]
    {
      var _ := log.Toggle(habitId, date);
      assert forall k :: k in logs && k != key ==> logs[k] != log;
    }

    /** The log half of a toggle: flips the pair and tells whether it was set before. */
    method ToggleInLog(logKey: string, habitId: string, date: Date) returns (wasCompleted: bool)
      requires Valid()
      modifies this, logs.Values
      ensures Valid()
      ensures fresh(logs.Values - old(logs.Values))
      ensures var log := if logKey in old(logs) then old(Entries())[logKey] else map[];
              && wasCompleted == (habitId in CompletedOn(log, date))
              && Entries() == old(Entries())[logKey := Flipped(log, habitId, date)]
    {
      var log := PutIfAbsent(logKey, date);
      ghost var stored := log.entries;
      wasCompleted := log.IsCompleted(habitId, date);
      assert wasCompleted == (habitId in CompletedOn(stored, date));
      hide CompletedOn, Flipped;
      FlipIn(logKey, log, habitId, date);
      ghost var flipped := Flipped(stored, habitId, date);
      assert old(Entries())[logKey := stored][logKey := flipped] == old(Entries())[logKey := flipped];
    }

    method ToggleCompletion(habitId: string, date: Date)
      requires Valid()
      modifies this, streaks, logs.Values
      ensures Valid()
      ensures fresh(logs.Values - old(logs.Values))
      ensures Contents() == Toggled(old(Contents()), habitId, date)
    {
      var wasCompleted := ToggleInLog(MonthKey(date.year, date.month), habitId, date);
      if !wasCompleted {
        streaks.RecordCompletion(habitId, date);
      } else {
        streaks.RemoveCompletion(habitId, date);
      }
    }

    /** `today` is the date part of the clock when the call is made. */
    method ToggleToday(habitId: string, today: Date)
      requires Valid()
      modifies this, streaks, logs.Values
      ensures Valid()
      ensures fresh(logs.Values - old(logs.Values))
      ensures Contents() == Toggled(old(Contents()), habitId, today)
    {
      ToggleCompletion(habitId, today);
    }
  }

  // ----- The month logs are one flat set of (habit, day) pairs --------------------------

  /** What a month's log reports for a date after a toggle: on the toggled date the one id flipped,
      on every other date of the month what it reported before. */
  lemma {:induction false} CompletionsAfterToggle(log: DayLog, habitId: string, date: Date, other: Date)
    requires date.Valid() && other.Valid() && other.year == date.year
    ensures var ids := CompletedOn(log, other);
            CompletedOn(Flipped(log, habitId, date), other)
            == if other != date then ids else if habitId in ids then ids - {habitId} else ids + {habitId}
  {
    DateKeyConfusesExactly(other, date);
  }

  /** A toggle flips the one pair it names and no other, whatever month the other lies in. */
  lemma {:induction false} ToggleFlipsOnePair(s: State, habitId: string, date: Date, otherId: string, other: Date)
    requires date.Valid() && other.Valid()
    ensures Done(Toggled(s, habitId, date).logs, otherId, other) <==>
            Done(s.logs, otherId, other) != (otherId == habitId && other == date)
  {
    if MonthKey(other.year, other.month) == MonthKey(date.year, date.month) && DateKey(other) == DateKey(date) {
      LogKeysInjective(other, date);
    }
  }

  /** Toggling twice restores every pair and touches no other month's log. */
  lemma {:induction false} ToggleTwiceRestores(s: State, habitId: string, date: Date, otherId: string, other: Date)
    requires date.Valid() && other.Valid()
    ensures var twice := Toggled(Toggled(s, habitId, date), habitId, date);
            && (Done(twice.logs, otherId, other) <==> Done(s.logs, otherId, other))
            && twice.logs.Keys == s.logs.Keys + {MonthKey(date.year, date.month)}
            && forall k :: k in s.logs && k != MonthKey(date.year, date.month) ==> twice.logs[k] == s.logs[k]
  {
    ToggleFlipsOnePair(s, habitId, date, otherId, other);
    ToggleFlipsOnePair(Toggled(s, habitId, date), habitId, date, otherId, other);
  }

  // ----- Refinement of the day-number model ---------------------------------------------

  ghost predicate NamesDay(lastDate: Option<string>, day: Option<int>) {
    match day
    case None => lastDate == None
    case Some(n) => exists d: Date :: d.Valid() && Ordinal(d) == n && lastDate == Some(DateStr(d))
  }

  ghost predicate LogIs(logs: map<string, DayLog>, habitId: string, days: set<int>) {
    forall d: Date :: d.Valid() ==> (Done(logs, habitId, d) <==> Ordinal(d) in days)
  }

  ghost predicate StreakIs(c: HabitStreak, s: Days.Streak) {
    c.current == s.current && c.best == s.best && NamesDay(c.lastDate, s.last)
  }

  ghost predicate Represents(s: State, habitId: string, h: Days.Habit) {
    LogIs(s.logs, habitId, h.log) && StreakIs(GetStreak(s.streaks, habitId), h.streak)
  }

  /** Comparing date strings is comparing day numbers. */
  lemma {:induction false} SameStringSameDay(lastDate: Option<string>, day: Option<int>, d: Date)
    requires NamesDay(lastDate, day) && d.Valid()
    ensures lastDate == Some(DateStr(d)) <==> day == Some(Ordinal(d))
  {
    if day.Some? {
      var l: Date :| l.Valid() && Ordinal(l) == day.value && lastDate == Some(DateStr(l));
      if lastDate == Some(DateStr(d)) {
        DateStrInjective(l, d);
      }
      if day == Some(Ordinal(d)) {
        OrdinalInjective(l, d);
      }
    }
  }

  lemma {:induction false} DoneIsLogged(logs: map<string, DayLog>, habitId: string, days: set<int>, d: Date)
    requires LogIs(logs, habitId, days) && d.Valid()
    ensures Done(logs, habitId, d) <==> Ordinal(d) in days
  {
  }

  lemma {:induction false} ToggleLogRefines(s: State, habitId: string, date: Date, days: set<int>)
    requires date.Valid() && LogIs(s.logs, habitId, days)
    ensures LogIs(Toggled(s, habitId, date).logs, habitId,
                  if Ordinal(date) in days then days - {Ordinal(date)} else days + {Ordinal(date)})
  {
    var after := Toggled(s, habitId, date).logs;
    var day := Ordinal(date);
    DoneIsLogged(s.logs, habitId, days, date);
    forall d: Date | d.Valid()
      ensures Done(after, habitId, d) <==> Ordinal(d) in (if day in days then days - {day} else days + {day})
    {
      ToggleFlipsOnePair(s, habitId, date, habitId, d);
      DoneIsLogged(s.logs, habitId, days, d);
      if Ordinal(d) == day {
        OrdinalInjective(d, date);
      }
    }
  }

  lemma {:induction false} RecordRefines(streaks: map<string, HabitStreak>, habitId: string, date: Date, s: Days.Streak)
    requires date.Valid() && StreakIs(GetStreak(streaks, habitId), s)
    ensures StreakIs(GetStreak(Recorded(streaks, habitId, date), habitId), Days.Record(s, Ordinal(date)))
  {
    PrevIsOneDayEarlier(date);
    SameStringSameDay(GetStreak(streaks, habitId).lastDate, s.last, date);
    SameStringSameDay(GetStreak(streaks, habitId).lastDate, s.last, Prev(date));
  }

  lemma {:induction false} RemoveRefines(streaks: map<string, HabitStreak>, habitId: string, date: Date, s: Days.Streak)
    requires date.Valid() && StreakIs(GetStreak(streaks, habitId), s)
    ensures StreakIs(GetStreak(Removed(streaks, habitId, date), habitId), Days.Remove(s, Ordinal(date)))
  {
    PrevIsOneDayEarlier(date);
    SameStringSameDay(GetStreak(streaks, habitId).lastDate, s.last, date);
  }

  /** Toggling a date in the app is toggling its day number in the model. */
  lemma {:induction false} ToggleRefines(s: State, habitId: string, date: Date, h: Days.Habit)
    requires date.Valid() && Represents(s, habitId, h)
    ensures Represents(Toggled(s, habitId, date), habitId, Days.Toggle(h, Ordinal(date)))
  {
    DoneIsLogged(s.logs, habitId, h.log, date);
    ToggleLogRefines(s, habitId, date, h.log);
    RecordRefines(s.streaks, habitId, date, h.streak);
    RemoveRefines(s.streaks, habitId, date, h.streak);
  }

  lemma {:induction false} ToggleLeavesOtherHabits(
      s: State, habitId: string, date: Date, otherId: string, h: Days.Habit)
    requires date.Valid() && otherId != habitId && Represents(s, otherId, h)
    ensures Represents(Toggled(s, habitId, date), otherId, h)
  {
    forall d: Date | d.Valid() ensures Done(Toggled(s, habitId, date).logs, otherId, d) <==> Ordinal(d) in h.log {
      ToggleFlipsOnePair(s, habitId, date, otherId, d);
    }
  }

  // ----- Runs ---------------------------------------------------------------------------

  datatype Tap = Tap(habitId: string, date: Date)

  ghost predicate ValidTaps(taps: seq<Tap>) {
    forall i :: 0 <= i < |taps| ==> taps[i].date.Valid()
  }

  /** The provider after a sequence of taps on an empty app. */
  function Replay(taps: seq<Tap>): State {
    if taps == [] then EMPTY
    else
      var tap := taps[|taps| - 1];
      Toggled(Replay(taps[..|taps| - 1]), tap.habitId, tap.date)
  }

  /** The day numbers one habit was tapped on, in order. */
  ghost function DaysOf(taps: seq<Tap>, habitId: string): seq<int>
    requires ValidTaps(taps)
  {
    if taps == [] then []
    else
      var tap := taps[|taps| - 1];
      var before := DaysOf(taps[..|taps| - 1], habitId);
      if tap.habitId == habitId then before + [Ordinal(tap.date)] else before
  }

  /** Every habit of the provider evolves as the one-habit model does on its own taps. */
  lemma {:induction false} ReplayRefinesEachHabit(taps: seq<Tap>, habitId: string)
    requires ValidTaps(taps)
    ensures Represents(Replay(taps), habitId, Days.Run(DaysOf(taps, habitId)))
  {
    if taps != [] {
      var before, tap := taps[..|taps| - 1], taps[|taps| - 1];
      ReplayRefinesEachHabit(before, habitId);
      if tap.habitId == habitId {
        ToggleRefines(Replay(before), habitId, tap.date, Days.Run(DaysOf(before, habitId)));
        var days := DaysOf(before, habitId);
        assert (days + [Ordinal(tap.date)])[..|days|] == days;
      } else {
        ToggleLeavesOtherHabits(Replay(before), tap.habitId, tap.date, habitId, Days.Run(DaysOf(before, habitId)));
      }
    }
  }

  /** Taps of `toggleToday` on a clock that never goes back. */
  ghost predicate OnForwardClock(taps: seq<Tap>) {
    ValidTaps(taps)
    && forall i, j :: 0 <= i < j < |taps| ==> Ordinal(taps[i].date) <= Ordinal(taps[j].date)
  }

  lemma {:induction false} DaysOfForwardClock(taps: seq<Tap>, habitId: string)
    requires OnForwardClock(taps)
    ensures Days.NonDecreasing(DaysOf(taps, habitId))
    ensures forall k :: 0 <= k < |DaysOf(taps, habitId)| ==>
              DaysOf(taps, habitId)[k] <= Ordinal(taps[|taps| - 1].date)
  {
    if |taps| > 1 {
      DaysOfForwardClock(taps[..|taps| - 1], habitId);
    }
  }

  /** The cached streak read against the log alone: the last date is no earlier than any logged
      date, and `current` counts the logged dates in a row that end there. */
  ghost predicate CacheMatchesLog(s: State, habitId: string) {
    var c := GetStreak(s.streaks, habitId);
    match c.lastDate
    case None => c.current == 0 && forall d: Date :: d.Valid() ==> !Done(s.logs, habitId, d)
    case Some(str) =>
      exists last: Date :: last.Valid() && str == DateStr(last) && EndsAt(s.logs, habitId, last, c.current)
  }

  ghost predicate NotAfter(d: Date, last: Date) {
    d.Valid() && last.Valid() && Ordinal(d) <= Ordinal(last)
  }

  ghost predicate EndsAt(logs: map<string, DayLog>, habitId: string, last: Date, n: int) {
    && 0 <= n
    && (forall d: Date :: d.Valid() && Done(logs, habitId, d) ==> NotAfter(d, last))
    && (forall i: nat :: i < n ==> Done(logs, habitId, Back(last, i)))
    && !Done(logs, habitId, Back(last, n))
  }

  lemma {:induction false} DoneInStreak(
      logs: map<string, DayLog>, habitId: string, days: set<int>, end: int, n: nat, d: Date, i: nat)
    requires LogIs(logs, habitId, days) && Days.StreakEnding(days, end, n)
    requires d.Valid() && Ordinal(d) == end - i && i <= n
    ensures Done(logs, habitId, d) <==> i < n
  {
    hide Ordinal, Done;
    DoneIsLogged(logs, habitId, days, d);
    assert end - i in days <==> i < n;
  }

  lemma {:induction false} StreakReadsBack(
      logs: map<string, DayLog>, habitId: string, days: set<int>, last: Date, n: nat)
    requires LogIs(logs, habitId, days) && last.Valid()
    requires Days.StreakEnding(days, Ordinal(last), n) && forall x :: x in days ==> x <= Ordinal(last)
    ensures EndsAt(logs, habitId, last, n)
  {
    forall i: nat | i <= n ensures Done(logs, habitId, Back(last, i)) <==> i < n {
      BackIsDaysEarlier(last, i);
      DoneInStreak(logs, habitId, days, Ordinal(last), n, Back(last, i), i);
    }
    forall d: Date | d.Valid() && Done(logs, habitId, d) ensures NotAfter(d, last) {
      DoneIsLogged(logs, habitId, days, d);
    }
  }

  lemma {:induction false} AgreementReadsBack(s: State, habitId: string, h: Days.Habit)
    requires Represents(s, habitId, h) && Days.Agrees(h)
    ensures CacheMatchesLog(s, habitId)
  {
    if h.streak.last.Some? {
      var c := GetStreak(s.streaks, habitId);
      var last: Date :| last.Valid() && Ordinal(last) == h.streak.last.value && c.lastDate == Some(DateStr(last));
      StreakReadsBack(s.logs, habitId, h.log, last, c.current);
    }
  }

  /** The main result on streaks: in every run of `toggleToday` over any habits on a clock that
      never goes back, each habit's cached streak is the one its log shows. */
  lemma {:induction false} ForwardRunCacheMatchesLog(taps: seq<Tap>, habitId: string)
    requires OnForwardClock(taps)
    ensures CacheMatchesLog(Replay(taps), habitId)
  {
    ReplayRefinesEachHabit(taps, habitId);
    DaysOfForwardClock(taps, habitId);
    Days.TodayRunAgrees(DaysOf(taps, habitId));
    AgreementReadsBack(Replay(taps), habitId, Days.Run(DaysOf(taps, habitId)));
  }

  lemma {:induction false} DaysOfThree(habitId: string, a: Date, b: Date, c: Date)
    requires a.Valid() && b.Valid() && c.Valid()
    ensures DaysOf([Tap(habitId, a), Tap(habitId, b), Tap(habitId, c)], habitId) == [Ordinal(a), Ordinal(b), Ordinal(c)]
  {
    hide Ordinal;
    var taps := [Tap(habitId, a), Tap(habitId, b), Tap(habitId, c)];
    assert taps[..2][..1] == taps[..1] && taps[..1][..0] == [];
    assert DaysOf(taps[..1], habitId) == [Ordinal(a)];
    assert DaysOf(taps[..2], habitId) == [Ordinal(a), Ordinal(b)];
  }

  lemma {:induction false} LoggedLastDateNeedsAStreak(s: State, habitId: string, date: Date)
    requires date.Valid() && Done(s.logs, habitId, date)
    requires GetStreak(s.streaks, habitId).lastDate == Some(DateStr(date)) && GetStreak(s.streaks, habitId).current == 0
    ensures !CacheMatchesLog(s, habitId)
  {
    hide DateStr, Done, GetStreak;
    forall last: Date | last.Valid() && DateStr(date) == DateStr(last) ensures !EndsAt(s.logs, habitId, last, 0) {
      DateStrInjective(last, date);
      assert Back(last, 0) == last;
    }
  }

  lemma {:induction false} ReadsBack(s: State, habitId: string, h: Days.Habit, date: Date)
    requires Represents(s, habitId, h) && date.Valid() && h.streak.last == Some(Ordinal(date))
    ensures Done(s.logs, habitId, date) <==> Ordinal(date) in h.log
    ensures GetStreak(s.streaks, habitId) == HabitStreak(h.streak.current, h.streak.best, Some(DateStr(date)))
  {
    hide Ordinal, DateStr, Done;
    DoneIsLogged(s.logs, habitId, h.log, date);
    SameStringSameDay(GetStreak(s.streaks, habitId).lastDate, h.streak.last, date);
  }

  /** Tapping a date twice and then the date before it leaves that date logged with a streak of 0:
      the cache does not survive back-dated toggles. */
  lemma {:induction false} BackdatedRunLosesStreak(habitId: string, date: Date)
    requires date.Valid()
    ensures var s := Replay([Tap(habitId, date), Tap(habitId, date), Tap(habitId, Prev(date))]);
            && Done(s.logs, habitId, Prev(date))
            && GetStreak(s.streaks, habitId) == HabitStreak(0, 1, Some(DateStr(Prev(date))))
            && !CacheMatchesLog(s, habitId)
  {
    PrevIsOneDayEarlier(date);
    hide Ordinal, DateStr, Replay, DaysOf, Prev, Done, CacheMatchesLog, Represents, GetStreak, Days.Run;
    var taps := [Tap(habitId, date), Tap(habitId, date), Tap(habitId, Prev(date))];
    DaysOfThree(habitId, date, date, Prev(date));
    ReplayRefinesEachHabit(taps, habitId);
    Days.BackdatingBreaksAgreement(Ordinal(date));
    ReadsBack(Replay(taps), habitId, Days.Run(DaysOf(taps, habitId)), Prev(date));
    LoggedLastDateNeedsAStreak(Replay(taps), habitId, Prev(date));
  }
}
