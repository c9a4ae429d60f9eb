/** Which week rows hold all the minutes that were ever added, after any number of cleanups. */
module MetricWeeks {
  import opened Wrappers
  import opened MetricRollup
  import opened CleanupRuns
  import opened MetricStore
  import opened MetricCleanups
  import opened MetricRetention

  /** The weeks that the minutes ever added amount to: by way of the days up to the last cut. */
  ghost function TrueWeeks(run: seq<Round>, now: int, keep: Retention): Table {
    Aggregate(TrueDays(run, MinuteCut(now, keep)), Day, Week, None, now - 7 * DAY)
  }

  /** Where the minutes are kept for a week or longer, that is the minutes themselves, rolled up by week. */
  lemma TrueWeeksOfMinutes(run: seq<Round>, now: int, keep: Retention)
    requires keep.fine >= 7
    ensures TrueWeeks(run, now, keep) == Aggregate(Seen(run), Minute, Week, None, MinuteCut(now, keep))
  {
    var end := MinuteCut(now, keep);
    var fine := Select(Seen(run), Minute, None, end);
    var days := Regroup(fine, Bucket(Day));
    forall k | k in days
      ensures Selects(Day, None, now - 7 * DAY, k)
    {
      RegroupKeys(fine, Bucket(Day), k);
      var f :| f in fine && Bucket(Day)(f) == k;
      FloorBounds(Day, f.start);
    }
    assert Select(days, Day, None, now - 7 * DAY) == days;
    forall k | k in fine
      ensures Bucket(Week)(k) == Bucket(Week)(Bucket(Day)(k))
    {
      FloorTwice(Day, Week, k.start);
    }
    RegroupTwice(fine, Bucket(Day), Bucket(Week), Bucket(Week));
  }

  ghost predicate WeekIsRight(run: seq<Round>, keep: Retention, week: Key)
    requires run != []
  {
    var r := run[|run| - 1];
    SameAt(r.left, TrueWeeks(run, r.now, keep), week)
  }

  ghost predicate WeekIsComplete(nows: seq<int>, keep: Retention, start: int)
    requires nows != []
  {
    forall run: seq<Round>, week: Key | RunsAt(run, nows, keep) && week.granularity.Week? && week.start == start ::
      WeekIsRight(run, keep, week)
  }

  /** A day of the week that starts at `start`, and that the last weekly roll-up takes in. */
  predicate IsDayOf(day: int, start: int, now: int) {
    Aligned(Day, day) && Floor(Week, day) == start && day < now - 7 * DAY
  }

  /** No cut of the minutes falls inside a day of the week. */
  ghost predicate NoDayIsCut(nows: seq<int>, keep: Retention, start: int)
    requires nows != []
  {
    forall day | IsDayOf(day, start, Last(nows)) :: NoCutInside(Minute, Day, day, MinuteTimes(nows, keep))
  }

  lemma KeptWeek(run: seq<Round>, nows: seq<int>, keep: Retention, week: Key)
    requires RunsAt(run, nows, keep) && nows != [] && week.granularity.Week? && IsKept(keep.week, Last(nows), week.start)
    ensures SameAt(run[|run| - 1].left, Weeks(run), week)
    ensures run[|run| - 1].now == Last(nows)
  {
    LayersOfRun(run, nows, keep);
    WeeksMirror(run, keep);
    KeptRow(Weeks(run), run[|run| - 1].left, Week, keep.week, Last(nows), week);
  }

  // ----- which cleanups see a day -----

  /** The cleanup rolls the day up: it is the first whose cut of the minutes lies beyond the day's start. */
  predicate RollsAt(nows: seq<int>, keep: Retention, day: int, j: nat)
    requires j < |nows|
  {
    day < MinuteCut(nows[j], keep) && (j > 0 ==> MinuteCut(nows[j - 1], keep) <= day)
  }

  /** The weekly roll-up of the cleanup sees the day's row: it has just been rolled up, or has been kept since. */
  predicate SeesDay(nows: seq<int>, keep: Retention, day: int, j: nat)
    requires j < |nows|
  {
    && day < MinuteCut(nows[j], keep) && day < nows[j] - 7 * DAY
    && (j > 0 ==> MinuteCut(nows[j - 1], keep) <= day || IsKept(keep.day, nows[j - 1], day))
  }

  /** A day of the week whose minutes have been rolled up. */
  predicate Counts(nows: seq<int>, keep: Retention, start: int, day: int)
    requires nows != []
  {
    IsDayOf(day, start, Last(nows)) && day < MinuteCut(Last(nows), keep)
  }

  ghost predicate SeenFrom(nows: seq<int>, keep: Retention, day: int, i: nat) {
    exists j: nat :: i <= j < |nows| && SeesDay(nows, keep, day, j)
  }

  /** Every such day is seen, and none for the last time before another is: the last roll-up of the week sees them all. */
  ghost predicate SeenTogether(nows: seq<int>, keep: Retention, start: int)
    requires nows != []
  {
    && (forall day | Counts(nows, keep, start, day) :: SeenFrom(nows, keep, day, 0))
    && (forall day, other, j: nat | Counts(nows, keep, start, day) && Counts(nows, keep, start, other) && j < |nows| && SeesDay(nows, keep, day, j) ::
          SeenFrom(nows, keep, other, j))
  }

  lemma RunPrefix(run: seq<Round>, nows: seq<int>, keep: Retention, m: nat)
    requires RunsAt(run, nows, keep) && m <= |run|
    ensures RunsAt(run[..m], nows[..m], keep)
  {
    var shorter := run[..m];
    forall i | 0 <= i < m
      ensures RoundAt(shorter, i, keep)
    {
      assert RoundAt(run, i, keep) && LeftBefore(shorter, i) == LeftBefore(run, i) && shorter[i] == run[i];
      assert i > 0 ==> shorter[i - 1] == run[i - 1];
    }
  }

  lemma {:induction false} FollowsAt(from: Granularity, stock: seq<Table>, times: seq<Times>, j: nat)
    requires Feasible(from, stock, times) && 0 < j < |times|
    ensures Follows(stock[j - 1], times[j - 1].cut, stock[j])
    decreases |times|
  {
    var n := |times| - 1;
    if j < n {
      FollowsAt(from, stock[..n], times[..n], j);
    }
  }

  lemma {:induction false} FineAt(from: Granularity, stock: seq<Table>, times: seq<Times>, j: nat)
    requires Feasible(from, stock, times) && j < |times|
    ensures FineOnly(stock[j], from)
    decreases |times|
  {
    if j < |times| - 1 {
      FineAt(from, stock[..|times| - 1], times[..|times| - 1], j);
    }
  }

  // ----- a day that no cut of the minutes falls into is rolled up once -----

  lemma {:induction false} OverlaidOnce(more: seq<Table>, r: nat, k: Key)
    requires forall j | 0 <= j < |more| && k in more[j] :: j == r
    ensures k in Overlaid(more) <==> r < |more| && k in more[r]
    ensures k in Overlaid(more) ==> Overlaid(more)[k] == more[r][k]
  {
    if more != [] {
      OverlaidOnce(more[..|more| - 1], r, k);
    }
  }

  /** A cut before the minute and after the day's start would be inside the day. */
  lemma NoCutBetween(day: int, cut: int, end: int, minute: int)
    requires Aligned(Day, day) && Aligned(Minute, minute) && Floor(Day, minute) == day && cut <= minute < end
    requires !CutInside(Minute, Day, day, cut, end)
    ensures cut <= day
  {
    var first := Ceiling(Minute, cut);
    CeilingIsFirst(Minute, cut, minute);
    if cut > day {
      FloorIsMonotone(Day, day, first);
      FloorIsMonotone(Day, first, minute);
    }
  }

  lemma MinuteOfDay(run: seq<Round>, nows: seq<int>, keep: Retention, day: Key, j: nat) returns (minute: int)
    requires RunsAt(run, nows, keep) && j < |nows| && day in run[j].days
    ensures Aligned(Minute, minute) && Floor(Day, minute) == day.start && minute < MinuteCut(nows[j], keep)
    ensures j > 0 ==> minute >= MinuteCut(nows[j - 1], keep)
  {
    LayersOfRun(run, nows, keep);
    var stock, times := MinuteStock(run), MinuteTimes(nows, keep);
    assert Queries(run[j], keep) && run[j].now == Nows(run)[j];
    FineAt(Minute, stock, times, j);
    AggregateIsOf(stock[j], Minute, Day, None, times[j].end, day);
    var f :| f in stock[j] && Selects(Minute, None, times[j].end, f) && day == Bucket(Day)(f);
    if j > 0 {
      FollowsAt(Minute, stock, times, j);
    }
    minute := f.start;
  }

  lemma RolledOnce(run: seq<Round>, nows: seq<int>, keep: Retention, day: Key, j: nat)
    requires RunsAt(run, nows, keep) && j < |nows| && day in run[j].days
    requires Aligned(Day, day.start) && NoCutInside(Minute, Day, day.start, MinuteTimes(nows, keep))
    ensures RollsAt(nows, keep, day.start, j)
  {
    var minute := MinuteOfDay(run, nows, keep, day, j);
    FloorBounds(Day, minute);
    if j > 0 {
      assert !CutAt(Minute, Day, day.start, MinuteTimes(nows, keep), j);
      NoCutBetween(day.start, MinuteCut(nows[j - 1], keep), MinuteCut(nows[j], keep), minute);
    }
  }

  lemma RollsOnce(nows: seq<int>, keep: Retention, day: int, i: nat, j: nat)
    requires Rising(nows) && i < |nows| && j < |nows| && RollsAt(nows, keep, day, i)
    ensures RollsAt(nows, keep, day, j) <==> j == i
    ensures j > i <==> j > 0 && MinuteCut(nows[j - 1], keep) > day
  {
    assert j > i ==> nows[i] <= nows[j - 1];
    assert 0 < j <= i ==> nows[j - 1] <= nows[i - 1];
  }

  // ----- the days that a weekly roll-up finds -----

  lemma DaysFound(run: seq<Round>, nows: seq<int>, keep: Retention, j: nat)
    requires RunsAt(run, nows, keep) && j < |nows|
    ensures DayStock(run)[j] ==
            (if j == 0 then map[] else TrimmedIf(Days(run[..j]), Day, keep.day, nows[j - 1])) + run[j].days
  {
    DaysLeft(run, nows, keep, j);
    DaysRolledAt(run, nows, keep, j, OfGranularity(LeftBefore(run, j), Day));
  }

  lemma DaysRolledAt(run: seq<Round>, nows: seq<int>, keep: Retention, j: nat, before: Table)
    requires RunsAt(run, nows, keep) && j < |nows| && before == OfGranularity(LeftBefore(run, j), Day)
    ensures DayStock(run)[j] == before + run[j].days
  {
    PartsOfRun(run, keep);
    assert DaysAt(run, j, keep);
  }

  /** The days in the table before a cleanup. */
  lemma DaysLeft(run: seq<Round>, nows: seq<int>, keep: Retention, j: nat)
    requires RunsAt(run, nows, keep) && j < |nows|
    ensures OfGranularity(LeftBefore(run, j), Day) == if j == 0 then map[] else TrimmedIf(Days(run[..j]), Day, keep.day, nows[j - 1])
  {
    if j > 0 {
      RunPrefix(run, nows, keep, j);
      PartsOfRun(run[..j], keep);
      DaysMirror(run[..j], keep);
      assert run[j - 1].now == Nows(run)[j - 1];
    } else {
      assert OfGranularity(map[], Day) == map[];
    }
  }

  lemma PrefixQueries(run: seq<Round>, j: nat)
    requires j <= |run|
    ensures DayQueries(run[..j]) == DayQueries(run)[..j]
  {
  }

  /** The rolled-up days so far: the day is among them from the round on that rolls it up. */
  lemma DayInPrefix(run: seq<Round>, nows: seq<int>, keep: Retention, day: Key, r: nat, j: nat)
    requires RunsAt(run, nows, keep) && j <= |nows| && r < |nows| && day in run[r].days
    requires Aligned(Day, day.start) && NoCutInside(Minute, Day, day.start, MinuteTimes(nows, keep))
    ensures day in Days(run[..j]) <==> r < j
    ensures r < j ==> Days(run[..j])[day] == run[r].days[day]
  {
    PrefixQueries(run, j);
    forall i | 0 <= i < j && day in run[i].days
      ensures i == r
    {
      OneRoundOnly(run, nows, keep, day, r, i);
    }
    OverlaidOnce(DayQueries(run[..j]), r, day);
  }

  lemma OneRoundOnly(run: seq<Round>, nows: seq<int>, keep: Retention, day: Key, r: nat, i: nat)
    requires RunsAt(run, nows, keep) && i < |nows| && r < |nows| && day in run[r].days && day in run[i].days
    requires Aligned(Day, day.start) && NoCutInside(Minute, Day, day.start, MinuteTimes(nows, keep))
    ensures i == r
  {
    RunRises(run, nows, keep);
    RolledOnce(run, nows, keep, day, r);
    RolledOnce(run, nows, keep, day, i);
    RollsOnce(nows, keep, day.start, r, i);
  }

  /** The day's row as the cleanup finds it. */
  lemma DayAt(run: seq<Round>, nows: seq<int>, keep: Retention, day: Key, r: nat, j: nat)
    requires RunsAt(run, nows, keep) && j < |nows| && r < |nows| && day in run[r].days && day.granularity.Day?
    requires Aligned(Day, day.start) && NoCutInside(Minute, Day, day.start, MinuteTimes(nows, keep))
    ensures day in DayStock(run)[j] <==> j == r || (r < j && IsKept(keep.day, nows[j - 1], day.start))
    ensures day in DayStock(run)[j] ==> DayStock(run)[j][day] == run[r].days[day]
  {
    DaysFound(run, nows, keep, j);
    DayInPrefix(run, nows, keep, day, r, j);
    if day in run[j].days {
      OneRoundOnly(run, nows, keep, day, r, j);
    }
  }

  lemma NeverRolled(run: seq<Round>, nows: seq<int>, keep: Retention, day: Key, j: nat)
    requires RunsAt(run, nows, keep) && j < |nows| && day !in Days(run)
    ensures day !in DayStock(run)[j]
  {
    DaysFound(run, nows, keep, j);
    PrefixQueries(run, j);
    OverlaidHas(DayQueries(run), day);
    OverlaidHas(DayQueries(run[..j]), day);
    assert DayQueries(run)[j] == run[j].days;
    assert forall i | 0 <= i < j :: DayQueries(run)[..j][i] == DayQueries(run)[i];
  }

  lemma SomeRound(run: seq<Round>, day: Key) returns (r: nat)
    requires day in Days(run)
    ensures r < |run| && day in run[r].days
  {
    OverlaidHas(DayQueries(run), day);
    r :| r < |run| && day in DayQueries(run)[r];
  }

  /** Whether the weekly roll-up selects the day's row, and with the right value. */
  lemma DayIsSeenIff(run: seq<Round>, nows: seq<int>, keep: Retention, amount: Table, day: Key, j: nat)
    requires RunsAt(run, nows, keep) && j < |nows| && amount == TrueDays(run, MinuteCut(Last(nows), keep)) && day.granularity.Day?
    requires Aligned(Day, day.start) && NoCutInside(Minute, Day, day.start, MinuteTimes(nows, keep))
    ensures day in DayStock(run)[j] && day.start < nows[j] - 7 * DAY <==> day in amount && SeesDay(nows, keep, day.start, j)
    ensures day in DayStock(run)[j] ==> day in amount && DayStock(run)[j][day] == amount[day]
  {
    DaysAreRight(run, nows, keep, day);
    LayersOfRun(run, nows, keep);
    if day in amount {
      var r := SomeRound(run, day);
      RolledOnce(run, nows, keep, day, r);
      RollsOnce(nows, keep, day.start, r, j);
      DayAt(run, nows, keep, day, r, j);
      WholeRun(run);
      DayInPrefix(run, nows, keep, day, r, |run|);
      SeesOnceRolled(nows, keep, day.start, r, j);
    } else {
      NeverRolled(run, nows, keep, day, j);
    }
  }

  lemma WholeRun(run: seq<Round>)
    ensures run[..|run|] == run
  {
  }

  lemma SeesOnceRolled(nows: seq<int>, keep: Retention, day: int, r: nat, j: nat)
    requires Rising(nows) && r < |nows| && j < |nows| && RollsAt(nows, keep, day, r)
    ensures SeesDay(nows, keep, day, j) <==>
            day < nows[j] - 7 * DAY && (j == r || (r < j && IsKept(keep.day, nows[j - 1], day)))
  {
    RollsOnce(nows, keep, day, r, j);
    assert r < j ==> nows[r] <= nows[j];
    assert j < r ==> nows[j] <= nows[r - 1];
  }

  // ----- when the week is right -----

  lemma DayRowsAreDays(run: seq<Round>, nows: seq<int>, keep: Retention, j: nat)
    requires RunsAt(run, nows, keep) && j < |nows|
    ensures FineOnly(DayStock(run)[j], Day)
  {
    DaysFound(run, nows, keep, j);
    RunPrefix(run, nows, keep, j);
    LayersOfRun(run, nows, keep);
    LayersOfRun(run[..j], nows[..j], keep);
    DaysAreFine(run[..j], keep);
    assert Queries(run[j], keep);
    AggregateIsFine(OfGranularity(run[j].found, Minute), Minute, Day, MinuteCut(run[j].now, keep));
  }

  lemma WeekQueryIs(run: seq<Round>, nows: seq<int>, keep: Retention, j: nat)
    requires RunsAt(run, nows, keep) && j < |nows|
    ensures run[j].weeks == Aggregate(DayStock(run)[j], Day, Week, None, nows[j] - 7 * DAY)
  {
    QueriesAt(run, nows, keep, j);
  }

  lemma WeekQueryAt(run: seq<Round>, nows: seq<int>, keep: Retention, j: nat) returns (days: Table, end: int)
    requires RunsAt(run, nows, keep) && j < |nows|
    ensures days == DayStock(run)[j] && end == nows[j] - 7 * DAY && run[j].weeks == Aggregate(days, Day, Week, None, end)
  {
    days, end := DayStock(run)[j], nows[j] - 7 * DAY;
    WeekQueryIs(run, nows, keep, j);
  }

  /** A row of the week: the roll-up selects it exactly if it counts in the end and is seen. */
  lemma RowOfWeek(run: seq<Round>, nows: seq<int>, keep: Retention, amount: Table, week: Key, k: Key, j: nat)
    requires RunsAt(run, nows, keep) && j < |nows| && amount == TrueDays(run, MinuteCut(Last(nows), keep))
    requires NoDayIsCut(nows, keep, week.start) && Bucket(Week)(k) == week
    ensures k in DayStock(run)[j] && k.start < nows[j] - 7 * DAY <==>
            k in amount && k.start < Last(nows) - 7 * DAY && SeesDay(nows, keep, k.start, j)
    ensures k in DayStock(run)[j] && k.start < nows[j] - 7 * DAY ==> DayStock(run)[j][k] == amount[k]
    ensures k in amount && k.start < Last(nows) - 7 * DAY ==> k.granularity.Day? && Counts(nows, keep, week.start, k.start)
  {
    RowsAreDays(run, nows, keep, amount, k, j);
    if k.granularity.Day? && Aligned(Day, k.start) && k.start < Last(nows) - 7 * DAY {
      assert IsDayOf(k.start, week.start, Last(nows));
      DayIsSeenIff(run, nows, keep, amount, k, j);
      if k in amount {
        AmountIsBefore(run, nows, keep, k);
      }
    }
  }

  lemma RowsAreDays(run: seq<Round>, nows: seq<int>, keep: Retention, amount: Table, k: Key, j: nat)
    requires RunsAt(run, nows, keep) && j < |nows| && amount == TrueDays(run, MinuteCut(Last(nows), keep))
    ensures nows[j] <= Last(nows)
    ensures k in DayStock(run)[j] || k in amount ==> k.granularity.Day? && Aligned(Day, k.start)
  {
    RunRises(run, nows, keep);
    DayRowsAreDays(run, nows, keep, j);
    AggregateIsFine(Seen(run), Minute, Day, MinuteCut(Last(nows), keep));
  }

  lemma AmountIsBefore(run: seq<Round>, nows: seq<int>, keep: Retention, day: Key)
    requires nows != [] && day in TrueDays(run, MinuteCut(Last(nows), keep))
    ensures day.start < MinuteCut(Last(nows), keep)
  {
    var end := MinuteCut(Last(nows), keep);
    AggregateIsOf(Seen(run), Minute, Day, None, end, day);
    var f :| f in Seen(run) && Selects(Minute, None, end, f) && day == Bucket(Day)(f);
    FloorBounds(Day, f.start);
  }

  lemma QueriedIsSeen(run: seq<Round>, nows: seq<int>, keep: Retention, amount: Table, week: Key, j: nat) returns (k: Key)
    requires RunsAt(run, nows, keep) && j < |nows| && amount == TrueDays(run, MinuteCut(Last(nows), keep))
    requires NoDayIsCut(nows, keep, week.start) && week in run[j].weeks
    ensures k in amount && Bucket(Week)(k) == week && Counts(nows, keep, week.start, k.start) && SeesDay(nows, keep, k.start, j)
  {
    WeekQueryIs(run, nows, keep, j);
    AggregateIsOf(DayStock(run)[j], Day, Week, None, nows[j] - 7 * DAY, week);
    k :| k in DayStock(run)[j] && Selects(Day, None, nows[j] - 7 * DAY, k) && week == Bucket(Week)(k);
    RowOfWeek(run, nows, keep, amount, week, k, j);
  }

  lemma SeenIsQueried(run: seq<Round>, nows: seq<int>, keep: Retention, amount: Table, week: Key, k: Key, j: nat)
    requires RunsAt(run, nows, keep) && j < |nows| && amount == TrueDays(run, MinuteCut(Last(nows), keep))
    requires NoDayIsCut(nows, keep, week.start) && Bucket(Week)(k) == week
    requires k in amount && k.start < Last(nows) - 7 * DAY && SeesDay(nows, keep, k.start, j)
    ensures week in run[j].weeks
  {
    WeekQueryIs(run, nows, keep, j);
    RowOfWeek(run, nows, keep, amount, week, k, j);
    RegroupKeys(Select(DayStock(run)[j], Day, None, nows[j] - 7 * DAY), Bucket(Week), week);
    assert k in Select(DayStock(run)[j], Day, None, nows[j] - 7 * DAY);
  }

  lemma RowAgrees(run: seq<Round>, nows: seq<int>, keep: Retention, amount: Table, week: Key, k: Key, j: nat)
    requires RunsAt(run, nows, keep) && j < |nows| && amount == TrueDays(run, MinuteCut(Last(nows), keep))
    requires NoDayIsCut(nows, keep, week.start) && Bucket(Week)(k) == week
    requires k in amount && k.start < Last(nows) - 7 * DAY ==> SeesDay(nows, keep, k.start, j)
    ensures SameRow(DayStock(run)[j], nows[j] - 7 * DAY, amount, Last(nows) - 7 * DAY, k)
  {
    RowOfWeek(run, nows, keep, amount, week, k, j);
  }

  lemma RowsAgree(run: seq<Round>, nows: seq<int>, keep: Retention, amount: Table, week: Key, j: nat,
                  days: Table, end: int, last: int, weeks: Table, truth: Table)
    requires RunsAt(run, nows, keep) && j < |nows| && amount == TrueDays(run, MinuteCut(Last(nows), keep))
    requires NoDayIsCut(nows, keep, week.start) && days == DayStock(run)[j] && end == nows[j] - 7 * DAY && last == Last(nows) - 7 * DAY
    requires forall k | k in amount && Bucket(Week)(k) == week && k.start < last :: SeesDay(nows, keep, k.start, j)
    requires weeks == Aggregate(days, Day, Week, None, end) && truth == Aggregate(amount, Day, Week, None, last)
    ensures SameAt(weeks, truth, week)
  {
    forall k | Bucket(Week)(k) == week
      ensures SameRow(days, end, amount, last, k)
    {
      RowAgrees(run, nows, keep, amount, week, k, j);
    }
    SelectionAt(days, amount, Day, Week, end, last, week);
  }

  /** A roll-up that sees every day that counts is right about the week. */
  lemma QueryOfAll(run: seq<Round>, nows: seq<int>, keep: Retention, amount: Table, week: Key, j: nat, truth: Table)
    requires RunsAt(run, nows, keep) && j < |nows| && amount == TrueDays(run, MinuteCut(Last(nows), keep))
    requires NoDayIsCut(nows, keep, week.start) && truth == Aggregate(amount, Day, Week, None, Last(nows) - 7 * DAY)
    requires forall k | k in amount && Bucket(Week)(k) == week && k.start < Last(nows) - 7 * DAY :: SeesDay(nows, keep, k.start, j)
    ensures SameAt(run[j].weeks, truth, week)
  {
    var days, end := WeekQueryAt(run, nows, keep, j);
    RowsAgree(run, nows, keep, amount, week, j, days, end, Last(nows) - 7 * DAY, run[j].weeks, truth);
  }

  lemma {:induction false} OverlaidLast(more: seq<Table>, k: Key) returns (last: nat)
    requires k in Overlaid(more)
    ensures last < |more| && k in more[last] && Overlaid(more)[k] == more[last][k]
    ensures forall j | last < j < |more| :: k !in more[j]
  {
    var n := |more| - 1;
    if k in more[n] {
      last := n;
    } else {
      last := OverlaidLast(more[..n], k);
      assert forall j | last < j < n :: more[..n][j] == more[j];
    }
  }

  /** A day that counts is in some weekly roll-up from `i` on, if it is seen from there. */
  lemma SeenFromIsQueried(run: seq<Round>, nows: seq<int>, keep: Retention, amount: Table, week: Key, k: Key, i: nat) returns (j: nat)
    requires RunsAt(run, nows, keep) && nows != [] && amount == TrueDays(run, MinuteCut(Last(nows), keep))
    requires NoDayIsCut(nows, keep, week.start) && Bucket(Week)(k) == week
    requires k in amount && k.start < Last(nows) - 7 * DAY && SeenFrom(nows, keep, k.start, i)
    ensures i <= j < |nows| && SeesDay(nows, keep, k.start, j) && week in WeekQueries(run)[j]
  {
    j :| i <= j < |nows| && SeesDay(nows, keep, k.start, j);
    SeenIsQueried(run, nows, keep, amount, week, k, j);
  }

  lemma CountsIfAdded(run: seq<Round>, nows: seq<int>, keep: Retention, amount: Table, week: Key, k: Key)
    requires RunsAt(run, nows, keep) && nows != [] && amount == TrueDays(run, MinuteCut(Last(nows), keep))
    requires NoDayIsCut(nows, keep, week.start) && Bucket(Week)(k) == week && k in amount && k.start < Last(nows) - 7 * DAY
    ensures Counts(nows, keep, week.start, k.start)
  {
    RowOfWeek(run, nows, keep, amount, week, k, 0);
  }

  lemma CountingDayIsInWeeks(run: seq<Round>, nows: seq<int>, keep: Retention, amount: Table, week: Key, k: Key)
    requires RunsAt(run, nows, keep) && nows != [] && amount == TrueDays(run, MinuteCut(Last(nows), keep))
    requires NoDayIsCut(nows, keep, week.start) && SeenTogether(nows, keep, week.start)
    requires Bucket(Week)(k) == week && k in amount && k.start < Last(nows) - 7 * DAY
    ensures week in Weeks(run)
  {
    CountsIfAdded(run, nows, keep, amount, week, k);
    var j := SeenFromIsQueried(run, nows, keep, amount, week, k, 0);
    OverlaidHas(WeekQueries(run), week);
  }

  lemma SomeDayOf(days: Table, end: int, week: Key) returns (k: Key)
    requires week in Aggregate(days, Day, Week, None, end)
    ensures k in days && k.start < end && Bucket(Week)(k) == week
  {
    AggregateIsOf(days, Day, Week, None, end, week);
    k :| k in days && Selects(Day, None, end, k) && week == Bucket(Week)(k);
  }

  /** A week that a day which counts belongs to is in some weekly roll-up. */
  lemma TrueWeekIsQueried(run: seq<Round>, nows: seq<int>, keep: Retention, amount: Table, week: Key)
    requires RunsAt(run, nows, keep) && nows != [] && amount == TrueDays(run, MinuteCut(Last(nows), keep))
    requires NoDayIsCut(nows, keep, week.start) && SeenTogether(nows, keep, week.start)
    requires week in Aggregate(amount, Day, Week, None, Last(nows) - 7 * DAY)
    ensures week in Weeks(run)
  {
    var k := SomeDayOf(amount, Last(nows) - 7 * DAY, week);
    CountingDayIsInWeeks(run, nows, keep, amount, week, k);
  }

  /** The last weekly roll-up that has the week sees every day of it that counts. */
  lemma LastSeesAll(run: seq<Round>, nows: seq<int>, keep: Retention, amount: Table, week: Key, last: nat, k: Key)
    requires RunsAt(run, nows, keep) && last < |nows| && amount == TrueDays(run, MinuteCut(Last(nows), keep))
    requires NoDayIsCut(nows, keep, week.start) && SeenTogether(nows, keep, week.start)
    requires week in WeekQueries(run)[last] && forall j | last < j < |nows| :: week !in WeekQueries(run)[j]
    requires k in amount && Bucket(Week)(k) == week && k.start < Last(nows) - 7 * DAY
    ensures SeesDay(nows, keep, k.start, last)
  {
    var day := QueriedIsSeen(run, nows, keep, amount, week, last);
    CountsIfAdded(run, nows, keep, amount, week, k);
    assert SeenFrom(nows, keep, k.start, last);
    var j := SeenFromIsQueried(run, nows, keep, amount, week, k, last);
  }

  lemma QueriedWeek(run: seq<Round>, nows: seq<int>, keep: Retention, amount: Table, week: Key, truth: Table)
    requires RunsAt(run, nows, keep) && nows != [] && amount == TrueDays(run, MinuteCut(Last(nows), keep))
    requires NoDayIsCut(nows, keep, week.start) && SeenTogether(nows, keep, week.start) && week in Weeks(run)
    requires truth == Aggregate(amount, Day, Week, None, Last(nows) - 7 * DAY)
    ensures SameAt(Weeks(run), truth, week)
  {
    var last := OverlaidLast(WeekQueries(run), week);
    forall k | k in amount && Bucket(Week)(k) == week && k.start < Last(nows) - 7 * DAY
      ensures SeesDay(nows, keep, k.start, last)
    {
      LastSeesAll(run, nows, keep, amount, week, last, k);
    }
    QueryOfAll(run, nows, keep, amount, week, last, truth);
  }

  lemma SeenWeekIsRight(run: seq<Round>, nows: seq<int>, keep: Retention, week: Key)
    requires RunsAt(run, nows, keep) && nows != [] && week.granularity.Week? && IsKept(keep.week, Last(nows), week.start)
    requires NoDayIsCut(nows, keep, week.start) && SeenTogether(nows, keep, week.start)
    ensures WeekIsRight(run, keep, week)
  {
    var amount := TrueDays(run, MinuteCut(Last(nows), keep));
    KeptWeek(run, nows, keep, week);
    if week in Weeks(run) {
      QueriedWeek(run, nows, keep, amount, week, TrueWeeks(run, Last(nows), keep));
    } else if week in TrueWeeks(run, Last(nows), keep) {
      TrueWeekIsQueried(run, nows, keep, amount, week);
    }
  }

  // ----- when it is wrong -----

  /** A day that is cut counts one of two requests, and so does its week. */
  lemma CutDayMakesWeekWrong(nows: seq<int>, keep: Retention, start: int, day: Key, i: nat) returns (run: seq<Round>)
    requires Rising(nows) && 0 < i < |nows| && IsKept(keep.week, Last(nows), start)
    requires day.granularity.Day? && IsDayOf(day.start, start, Last(nows))
    requires CutInside(Minute, Day, day.start, MinuteCut(nows[i - 1], keep), MinuteCut(nows[i], keep))
    ensures RunsAt(run, nows, keep) && !WeekIsRight(run, keep, Key(Week, start, day.dims))
  {
    run := CutDayIsOverwritten(nows, keep, day, i);
    OneDayIsWrong(run, nows, keep, day, Key(Week, start, day.dims));
  }

  lemma OneDayIsWrong(run: seq<Round>, nows: seq<int>, keep: Retention, day: Key, week: Key)
    requires RunsAt(run, nows, keep) && nows != [] && week.granularity.Week? && IsKept(keep.week, Last(nows), week.start)
    requires day.granularity.Day? && day.start < Last(nows) - 7 * DAY && Bucket(Week)(day) == week
    requires forall j | 0 <= j < |nows| :: AtMostOne(DayQueries(run)[j], day)
    requires TrueDays(run, MinuteCut(Last(nows), keep)) == map[day := Vals(2, 0, 0, 0)]
    ensures !WeekIsRight(run, keep, week)
  {
    KeptWeek(run, nows, keep, week);
    OneDayInWeek(run, nows, keep, day, week);
    TwoInWeek(map[day := Vals(2, 0, 0, 0)], day, week, Last(nows) - 7 * DAY);
  }

  lemma OneDayInWeek(run: seq<Round>, nows: seq<int>, keep: Retention, day: Key, week: Key)
    requires RunsAt(run, nows, keep) && Bucket(Week)(day) == week
    requires forall j | 0 <= j < |nows| :: AtMostOne(DayQueries(run)[j], day)
    ensures AtMostOne(Weeks(run), week)
  {
    forall j | 0 <= j < |nows|
      ensures AtMostOne(WeekQueries(run)[j], week)
    {
      WeekQueryOfOne(run, nows, keep, day, week, j);
    }
    OverlaidAtMostOne(WeekQueries(run), week);
  }

  lemma TwoInWeek(amount: Table, day: Key, week: Key, end: int)
    requires amount == map[day := Vals(2, 0, 0, 0)] && day.granularity.Day? && day.start < end && Bucket(Week)(day) == week
    ensures Aggregate(amount, Day, Week, None, end) == map[week := Vals(2, 0, 0, 0)]
  {
    assert Select(amount, Day, None, end) == amount;
    RegroupOne(day, Vals(2, 0, 0, 0), Bucket(Week));
  }

  lemma WeekQueryOfOne(run: seq<Round>, nows: seq<int>, keep: Retention, day: Key, week: Key, j: nat)
    requires RunsAt(run, nows, keep) && j < |nows| && Bucket(Week)(day) == week
    requires forall i | 0 <= i < |nows| :: AtMostOne(DayQueries(run)[i], day)
    ensures AtMostOne(WeekQueries(run)[j], week)
  {
    var end := nows[j] - 7 * DAY;
    DaysFound(run, nows, keep, j);
    PrefixQueries(run, j);
    OverlaidAtMostOne(DayQueries(run[..j]), day);
    assert AtMostOne(DayQueries(run)[j], day);
    WeekQueryIs(run, nows, keep, j);
    QueryOfOneDay(DayStock(run)[j], end, day, week);
  }

  lemma QueryOfOneDay(days: Table, end: int, day: Key, week: Key)
    requires AtMostOne(days, day) && Bucket(Week)(day) == week
    ensures AtMostOne(Aggregate(days, Day, Week, None, end), week)
  {
    AggregateOfOne(days, Day, Week, end, day);
    forall g | g in Aggregate(days, Day, Week, None, end)
      ensures g == week
    {
      AggregateIsOf(days, Day, Week, None, end, g);
    }
  }

  /** A run in which these rows are added, and nothing after. */
  lemma RunOf(rows: seq<Row>, nows: seq<int>, keep: Retention) returns (run: seq<Round>)
    requires Rising(nows) && nows != [] && forall row | row in rows :: Arrives(row)
    ensures RunsAt(run, nows, keep) && Seen(run) == IncrementAll(map[], rows)
  {
    run := QuietRun(rows, nows, keep);
  }

  lemma MinuteAtStart(day: int, week: int) returns (k: Key, d: Key)
    requires Aligned(Day, day) && Floor(Week, day) == week
    ensures k == Key(Minute, day, DIMS) && d == Key(Day, day, DIMS) && Aligned(Minute, day)
    ensures Bucket(Day)(k) == d && Bucket(Week)(d) == Key(Week, week, DIMS)
  {
    k, d := Key(Minute, day, DIMS), Key(Day, day, DIMS);
    FloorTwice(Minute, Day, day);
  }

  /** A day that no weekly roll-up sees is missing in its week. */
  lemma UnseenDayMakesWeekWrong(nows: seq<int>, keep: Retention, start: int, day: int) returns (run: seq<Round>)
    requires Rising(nows) && nows != [] && IsKept(keep.week, Last(nows), start) && NoDayIsCut(nows, keep, start)
    requires Counts(nows, keep, start, day) && !SeenFrom(nows, keep, day, 0)
    ensures RunsAt(run, nows, keep) && !WeekIsRight(run, keep, Key(Week, start, DIMS))
  {
    var week, end := Key(Week, start, DIMS), Last(nows) - 7 * DAY;
    var k, d := MinuteAtStart(day, start);
    AddOne(k);
    run := RunOf([Row(k, ONE)], nows, keep);
    OneMinuteOfWeek(k, d, week, MinuteCut(Last(nows), keep), end);
    assert TrueDays(run, MinuteCut(Last(nows), keep)) == map[d := ONE];
    KeptWeek(run, nows, keep, week);
    UnseenWeek(run, nows, keep, d, week);
  }

  lemma UnseenWeek(run: seq<Round>, nows: seq<int>, keep: Retention, d: Key, week: Key)
    requires RunsAt(run, nows, keep) && nows != [] && NoDayIsCut(nows, keep, week.start)
    requires TrueDays(run, MinuteCut(Last(nows), keep)) == map[d := ONE] && !SeenFrom(nows, keep, d.start, 0)
    ensures week !in Weeks(run)
  {
    if week in Weeks(run) {
      var j := OverlaidLast(WeekQueries(run), week);
      var seen := QueriedIsSeen(run, nows, keep, map[d := ONE], week, j);
      assert false;
    }
  }

  lemma AddOne(k: Key)
    ensures IncrementAll(map[], [Row(k, ONE)]) == map[k := ONE]
  {
    var rows, none: Table := [Row(k, ONE)], map[];
    assert rows[1..] == [] && IncrementAll(none, rows) == IncrementAll(Increment(none, rows[0]), []);
  }

  lemma OneMinuteOfWeek(k: Key, d: Key, week: Key, end: int, weekEnd: int)
    requires k.granularity.Minute? && k.start < end && d.start < weekEnd && Bucket(Day)(k) == d && Bucket(Week)(d) == week
    ensures Aggregate(map[k := ONE], Minute, Day, None, end) == map[d := ONE]
    ensures week in Aggregate(map[d := ONE], Day, Week, None, weekEnd)
  {
    assert Select(map[k := ONE], Minute, None, end) == map[k := ONE];
    RegroupOne(k, ONE, Bucket(Day));
    assert Select(map[d := ONE], Day, None, weekEnd) == map[d := ONE];
    RegroupOne(d, ONE, Bucket(Week));
  }

  /** Two days of a week, and `one` is still seen when `other` no longer is: the week's row counts only the first. */
  lemma DaysSeenApartMakeWeekWrong(nows: seq<int>, keep: Retention, start: int, one: int, other: int, j: nat) returns (run: seq<Round>)
    requires Rising(nows) && j < |nows| && IsKept(keep.week, Last(nows), start) && NoDayIsCut(nows, keep, start)
    requires Counts(nows, keep, start, one) && Counts(nows, keep, start, other)
    requires SeesDay(nows, keep, one, j) && !SeenFrom(nows, keep, other, j)
    ensures RunsAt(run, nows, keep) && !WeekIsRight(run, keep, Key(Week, start, DIMS))
  {
    var k, d := MinuteAtStart(one, start);
    var l, e := MinuteAtStart(other, start);
    run := RunOfTwoDays(k, l, d, e, Key(Week, start, DIMS), nows, keep);
    OneDayOfTwoIsWrong(run, nows, keep, d, e, Key(Week, start, DIMS), j);
  }

  lemma RunOfTwo(k: Key, l: Key, nows: seq<int>, keep: Retention) returns (run: seq<Round>)
    requires Rising(nows) && nows != [] && k != l && Arrives(Row(k, ONE)) && Arrives(Row(l, ONE))
    ensures RunsAt(run, nows, keep) && Seen(run) == map[k := ONE, l := ONE]
  {
    AddTwo(k, l);
    run := RunOf(Two(k, l), nows, keep);
  }

  lemma RunOfTwoDays(k: Key, l: Key, d: Key, e: Key, week: Key, nows: seq<int>, keep: Retention) returns (run: seq<Round>)
    requires Rising(nows) && nows != [] && Arrives(Row(k, ONE)) && Arrives(Row(l, ONE))
    requires IsDue(k, d, nows, keep) && IsDue(l, e, nows, keep) && d != e && Bucket(Week)(d) == week == Bucket(Week)(e)
    ensures RunsAt(run, nows, keep)
    ensures TrueDays(run, MinuteCut(Last(nows), keep)) == map[d := ONE, e := ONE]
    ensures TrueWeeks(run, Last(nows), keep) == map[week := Vals(2, 0, 0, 0)]
  {
    run := RunOfTwo(k, l, nows, keep);
    DaysOfTwo(Seen(run), k, l, d, e, MinuteCut(Last(nows), keep));
    AggregateOfTwo(Day, Week, d, e, Last(nows) - 7 * DAY);
  }

  /** Both roll-ups of the last cleanup take in the minute `k` of the day `d`. */
  ghost predicate IsDue(k: Key, d: Key, nows: seq<int>, keep: Retention)
    requires nows != []
  {
    k.granularity.Minute? && k.start < MinuteCut(Last(nows), keep) && Bucket(Day)(k) == d && d.start < Last(nows) - 7 * DAY
  }

  lemma OneDayOfTwoIsWrong(run: seq<Round>, nows: seq<int>, keep: Retention, d: Key, e: Key, week: Key, j: nat)
    requires RunsAt(run, nows, keep) && j < |nows| && NoDayIsCut(nows, keep, week.start) && week.granularity.Week?
    requires TrueDays(run, MinuteCut(Last(nows), keep)) == map[d := ONE, e := ONE] && d.start < Last(nows) - 7 * DAY
    requires TrueWeeks(run, Last(nows), keep) == map[week := Vals(2, 0, 0, 0)] && IsKept(keep.week, Last(nows), week.start)
    requires Bucket(Week)(d) == week && SeesDay(nows, keep, d.start, j) && !SeenFrom(nows, keep, e.start, j)
    ensures !WeekIsRight(run, keep, week)
  {
    KeptWeek(run, nows, keep, week);
    LastSeenDay(run, nows, keep, d, e, week, j);
  }

  /** Two minutes of two days, rolled up. */
  lemma DaysOfTwo(t: Table, k: Key, l: Key, d: Key, e: Key, end: int)
    requires t == map[k := ONE, l := ONE] && k.granularity.Minute? && l.granularity.Minute? && k.start < end && l.start < end
    requires Bucket(Day)(k) == d && Bucket(Day)(l) == e && d != e
    ensures Aggregate(t, Minute, Day, None, end) == map[d := ONE, e := ONE]
  {
    assert Select(t, Minute, None, end) == t;
    RegroupFrom(t, Bucket(Day), l);
    assert t - {l} == map[k := ONE];
    RegroupOne(k, ONE, Bucket(Day));
  }

  lemma LastSeenDay(run: seq<Round>, nows: seq<int>, keep: Retention, d: Key, e: Key, week: Key, j: nat)
    requires RunsAt(run, nows, keep) && j < |nows| && NoDayIsCut(nows, keep, week.start)
    requires TrueDays(run, MinuteCut(Last(nows), keep)) == map[d := ONE, e := ONE] && d.start < Last(nows) - 7 * DAY
    requires Bucket(Week)(d) == week && SeesDay(nows, keep, d.start, j) && !SeenFrom(nows, keep, e.start, j)
    ensures week in Weeks(run) && Weeks(run)[week] == ONE
  {
    var stock, times := DayStock(run), DayTimes(nows, keep);
    forall i | j <= i < |nows|
      ensures OnlySees(stock[i], Day, Week, times[i].end, d)
    {
      OnlyOneDay(run, nows, keep, d, e, week, i);
    }
    RowOfWeek(run, nows, keep, map[d := ONE, e := ONE], week, d, j);
    WeeksOfRun(run, nows, keep);
    LateRowsOverwrite(Day, Week, stock, times, j, d);
  }

  lemma WeeksOfRun(run: seq<Round>, nows: seq<int>, keep: Retention)
    requires RunsAt(run, nows, keep)
    ensures Weeks(run) == Coarse(Day, Week, DayStock(run), DayTimes(nows, keep))
  {
    PartsOfRun(run, keep);
    WeeksAreCoarse(run, keep);
  }

  lemma OnlyOneDay(run: seq<Round>, nows: seq<int>, keep: Retention, d: Key, e: Key, week: Key, i: nat)
    requires RunsAt(run, nows, keep) && i < |nows| && NoDayIsCut(nows, keep, week.start) && Bucket(Week)(d) == week
    requires TrueDays(run, MinuteCut(Last(nows), keep)) == map[d := ONE, e := ONE] && !SeesDay(nows, keep, e.start, i)
    ensures OnlySees(DayStock(run)[i], Day, Week, nows[i] - 7 * DAY, d)
  {
    var amount: Table := map[d := ONE, e := ONE];
    forall k | k in Select(DayStock(run)[i], Day, None, nows[i] - 7 * DAY) && Bucket(Week)(k) == week
      ensures k == d && DayStock(run)[i][k] == ONE
    {
      RowOfWeek(run, nows, keep, amount, week, k, i);
    }
  }

  // ----- exactly when -----

  lemma WrongWeek(run: seq<Round>, nows: seq<int>, keep: Retention, week: Key)
    requires RunsAt(run, nows, keep) && nows != [] && week.granularity.Week? && !WeekIsRight(run, keep, week)
    ensures !WeekIsComplete(nows, keep, week.start)
  {
  }

  lemma SomeDayIsCut(nows: seq<int>, keep: Retention, start: int, cuts: seq<Times>) returns (day: int, i: nat)
    requires nows != [] && cuts == MinuteTimes(nows, keep) && !NoDayIsCut(nows, keep, start)
    ensures IsDayOf(day, start, Last(nows)) && 0 < i < |nows|
    ensures CutInside(Minute, Day, day, cuts[i - 1].cut, cuts[i].end)
  {
    day :| IsDayOf(day, start, Last(nows)) && !NoCutInside(Minute, Day, day, cuts);
    i :| 0 < i < |cuts| && CutAt(Minute, Day, day, cuts, i);
  }

  lemma CutDayMakesWeekIncomplete(nows: seq<int>, keep: Retention, start: int)
    requires Rising(nows) && nows != [] && IsKept(keep.week, Last(nows), start) && !NoDayIsCut(nows, keep, start)
    ensures !WeekIsComplete(nows, keep, start)
  {
    var day, i := SomeDayIsCut(nows, keep, start, MinuteTimes(nows, keep));
    var run := CutDayMakesWeekWrong(nows, keep, start, Key(Day, day, DIMS), i);
    WrongWeek(run, nows, keep, Key(Week, start, DIMS));
  }

  lemma DaysApartMakeWeekIncomplete(nows: seq<int>, keep: Retention, start: int)
    requires Rising(nows) && nows != [] && IsKept(keep.week, Last(nows), start)
    requires NoDayIsCut(nows, keep, start) && !SeenTogether(nows, keep, start)
    ensures !WeekIsComplete(nows, keep, start)
  {
    var run;
    if day :| Counts(nows, keep, start, day) && !SeenFrom(nows, keep, day, 0) {
      run := UnseenDayMakesWeekWrong(nows, keep, start, day);
    } else {
      var one, other, j: nat :| Counts(nows, keep, start, one) && Counts(nows, keep, start, other) && j < |nows|
                                && SeesDay(nows, keep, one, j) && !SeenFrom(nows, keep, other, j);
      run := DaysSeenApartMakeWeekWrong(nows, keep, start, one, other, j);
    }
    WrongWeek(run, nows, keep, Key(Week, start, DIMS));
  }

  /**
   After any number of cleanups, for every retention: a week whose row is still kept is complete,
   whatever was added, exactly when no cut of the minutes fell inside one of its days and the last
   weekly roll-up that saw any of its days saw all of them.
   */
  lemma WeekIsCompleteIff(nows: seq<int>, keep: Retention, start: int)
    requires Rising(nows) && nows != [] && IsKept(keep.week, Last(nows), start)
    ensures WeekIsComplete(nows, keep, start) <==> NoDayIsCut(nows, keep, start) && SeenTogether(nows, keep, start)
  {
    if !NoDayIsCut(nows, keep, start) {
      CutDayMakesWeekIncomplete(nows, keep, start);
    } else if !SeenTogether(nows, keep, start) {
      DaysApartMakeWeekIncomplete(nows, keep, start);
    } else {
      forall run: seq<Round>, week: Key | RunsAt(run, nows, keep) && week.granularity.Week? && week.start == start
        ensures WeekIsRight(run, keep, week)
      {
        SeenWeekIsRight(run, nows, keep, week);
      }
    }
  }

  // ----- the condition where days are kept longer than minutes -----

  /** The day rows are kept longer than the minutes, and for a week at least, as in the shipped configuration. */
  predicate DaysOutliveMinutes(keep: Retention) {
    keep.day > keep.fine && keep.day >= 7
  }

  /** Then a day is seen by every roll-up that it is due for until it is deleted. */
  lemma SeenUntilDeleted(nows: seq<int>, keep: Retention, day: int, j: nat)
    requires DaysOutliveMinutes(keep) && j < |nows|
    ensures SeesDay(nows, keep, day, j) <==>
            day < MinuteCut(nows[j], keep) && day < nows[j] - 7 * DAY && (j > 0 ==> day >= nows[j - 1] - keep.day * DAY)
  {
  }

  /** A roll-up from `i` on sees a day that still has its row then. */
  lemma DueDayIsSeen(nows: seq<int>, keep: Retention, start: int, day: int, i: nat)
    requires DaysOutliveMinutes(keep) && Rising(nows) && i < |nows| && Counts(nows, keep, start, day)
    requires i > 0 ==> day >= nows[i - 1] - keep.day * DAY
    ensures SeenFrom(nows, keep, day, i)
    decreases |nows| - i
  {
    SeenUntilDeleted(nows, keep, day, i);
    if !SeesDay(nows, keep, day, i) {
      assert i < |nows| - 1;
      DueDayIsSeen(nows, keep, start, day, i + 1);
    }
  }

  /** There the second half of the condition is that no cut of the days falls inside the week either. */
  lemma SeenTogetherIff(nows: seq<int>, keep: Retention, start: int)
    requires DaysOutliveMinutes(keep) && Rising(nows) && nows != [] && Aligned(Week, start)
    ensures SeenTogether(nows, keep, start) <==> NoCutInside(Day, Week, start, DayTimes(nows, keep))
  {
    if NoCutInside(Day, Week, start, DayTimes(nows, keep)) {
      UncutWeekIsSeen(nows, keep, start);
    } else {
      CutWeekIsNotSeen(nows, keep, start);
    }
  }

  lemma UncutWeekIsSeen(nows: seq<int>, keep: Retention, start: int)
    requires DaysOutliveMinutes(keep) && Rising(nows) && nows != [] && Aligned(Week, start)
    requires NoCutInside(Day, Week, start, DayTimes(nows, keep))
    ensures SeenTogether(nows, keep, start)
  {
    forall day | Counts(nows, keep, start, day)
      ensures SeenFrom(nows, keep, day, 0)
    {
      DueDayIsSeen(nows, keep, start, day, 0);
    }
    forall day, other, j: nat | Counts(nows, keep, start, day) && Counts(nows, keep, start, other) && j < |nows| && SeesDay(nows, keep, day, j)
      ensures SeenFrom(nows, keep, other, j)
    {
      SeenWithTheOther(nows, keep, start, day, other, j);
    }
  }

  lemma SeenWithTheOther(nows: seq<int>, keep: Retention, start: int, day: int, other: int, j: nat)
    requires DaysOutliveMinutes(keep) && Rising(nows) && j < |nows| && Aligned(Week, start)
    requires NoCutInside(Day, Week, start, DayTimes(nows, keep)) && SeesDay(nows, keep, day, j)
    requires Counts(nows, keep, start, day) && Counts(nows, keep, start, other)
    ensures SeenFrom(nows, keep, other, j)
  {
    SeenUntilDeleted(nows, keep, day, j);
    if j > 0 {
      assert !CutAt(Day, Week, start, DayTimes(nows, keep), j);
      NoCutBetweenDays(start, nows[j - 1] - keep.day * DAY, nows[j] - 7 * DAY, day, other);
    }
    DueDayIsSeen(nows, keep, start, other, j);
  }

  /** Of two days of a week, a cut before the one and after the other is inside the week. */
  lemma NoCutBetweenDays(start: int, cut: int, end: int, day: int, other: int)
    requires Aligned(Week, start) && Aligned(Day, day) && Aligned(Day, other) && Floor(Week, day) == start == Floor(Week, other)
    requires cut <= day < end && !CutInside(Day, Week, start, cut, end)
    ensures cut <= other
  {
    var first := Ceiling(Day, cut);
    CeilingIsFirst(Day, cut, day);
    CeilingIsFirst(Day, cut, other);
    FloorBounds(Week, other);
    if other < cut {
      FloorIsMonotone(Week, start, first);
      FloorIsMonotone(Week, first, day);
    }
  }

  /** A cut of the days inside a week: its first day is before the cut, and another day of it after. */
  lemma CutBetweenDays(start: int, cut: int, end: int) returns (first: int)
    requires Aligned(Week, start) && CutInside(Day, Week, start, cut, end)
    ensures start < cut <= first < end && first < cut + DAY
    ensures Aligned(Day, start) && Floor(Week, start) == start && Aligned(Day, first) && Floor(Week, first) == start
  {
    first := Ceiling(Day, cut);
    FloorTwice(Day, Week, start);
    CeilingIsFirst(Day, cut, start);
  }

  /** A day is not seen by a roll-up after the one that deleted its row. */
  lemma DeletedIsNotSeen(nows: seq<int>, keep: Retention, day: int, i: nat)
    requires DaysOutliveMinutes(keep) && Rising(nows) && 0 < i < |nows| && day < nows[i - 1] - keep.day * DAY
    ensures !SeenFrom(nows, keep, day, i)
  {
    forall j: nat | i <= j < |nows|
      ensures !SeesDay(nows, keep, day, j)
    {
      SeenUntilDeleted(nows, keep, day, j);
      assert nows[i - 1] <= nows[j - 1];
    }
  }

  lemma SomeWeekCut(nows: seq<int>, keep: Retention, start: int, cuts: seq<Times>) returns (i: nat)
    requires cuts == DayTimes(nows, keep) && !NoCutInside(Day, Week, start, cuts)
    ensures 0 < i < |nows| && CutInside(Day, Week, start, nows[i - 1] - keep.day * DAY, nows[i] - 7 * DAY)
  {
    i :| 0 < i < |cuts| && CutAt(Day, Week, start, cuts, i);
  }

  lemma CountsBy(nows: seq<int>, keep: Retention, start: int, day: int, i: nat)
    requires DaysOutliveMinutes(keep) && Rising(nows) && 0 < i < |nows| && Aligned(Day, day) && Floor(Week, day) == start
    requires day < nows[i] - 7 * DAY && day < nows[i - 1] - keep.day * DAY + DAY
    ensures day < MinuteCut(nows[i], keep) && Counts(nows, keep, start, day)
  {
    assert nows[i - 1] <= nows[i] <= Last(nows);
  }

  lemma CutWeekIsNotSeen(nows: seq<int>, keep: Retention, start: int)
    requires DaysOutliveMinutes(keep) && Rising(nows) && nows != [] && Aligned(Week, start)
    requires !NoCutInside(Day, Week, start, DayTimes(nows, keep))
    ensures !SeenTogether(nows, keep, start)
  {
    var i := SomeWeekCut(nows, keep, start, DayTimes(nows, keep));
    var first := CutBetweenDays(start, nows[i - 1] - keep.day * DAY, nows[i] - 7 * DAY);
    CountsBy(nows, keep, start, start, i);
    CountsBy(nows, keep, start, first, i);
    SeenUntilDeleted(nows, keep, first, i);
    DeletedIsNotSeen(nows, keep, start, i);
  }

  // ----- other retentions -----

  /** Days kept no longer than the minutes, here 5 and 10: each is gone when the next day of its week is rolled up. */
  lemma ShortLivedDaysOverwriteTheWeek(start: int)
    requires Aligned(Week, start)
    ensures var nows := [start + 11 * DAY, start + 12 * DAY]; !WeekIsComplete(nows, Retention(10, 5, 0), start)
  {
    var nows, keep := [start + 11 * DAY, start + 12 * DAY], Retention(10, 5, 0);
    DaysOfTheWeek(start);
    assert Counts(nows, keep, start, start) && Counts(nows, keep, start, start + DAY);
    assert SeesDay(nows, keep, start + DAY, 1) && !SeesDay(nows, keep, start, 1);
    assert !SeenFrom(nows, keep, start, 1);
    WeekIsCompleteIff(nows, keep, start);
  }

  /** Days kept for less than a week, here 5, with minutes for 1: no weekly roll-up ever sees them. */
  lemma ShortLivedDaysNeverReachTheWeek(start: int)
    requires Aligned(Week, start)
    ensures var nows := [start + 2 * DAY, start + 7 * DAY, start + 8 * DAY]; !WeekIsComplete(nows, Retention(1, 5, 0), start)
  {
    var nows, keep := [start + 2 * DAY, start + 7 * DAY, start + 8 * DAY], Retention(1, 5, 0);
    DaysOfTheWeek(start);
    assert Counts(nows, keep, start, start);
    assert !SeesDay(nows, keep, start, 0) && !SeesDay(nows, keep, start, 1) && !SeesDay(nows, keep, start, 2);
    assert !SeenFrom(nows, keep, start, 0);
    WeekIsCompleteIff(nows, keep, start);
  }

  lemma DaysOfTheWeek(start: int)
    requires Aligned(Week, start)
    ensures Aligned(Day, start) && Aligned(Day, start + DAY) && Floor(Week, start) == start == Floor(Week, start + DAY)
  {
    FloorTwice(Day, Week, start);
    var day := start / DAY;
    assert start == day * DAY;
    DayOfStart(day + 1);
    MondayBounds(day);
  }
}
