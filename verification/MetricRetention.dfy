/** Which day rows hold all the minutes that were ever added, after any number of cleanups. */
module MetricRetention {
  import opened Wrappers
  import opened MetricRollup
  import opened CleanupRuns
  import opened MetricStore
  import opened MetricCleanups

  function Last(nows: seq<int>): int
    requires nows != []
  {
    nows[|nows| - 1]
  }

  /** A row of a granularity kept for so many days, zero meaning for ever, is there after the cleanup at `now`. */
  predicate IsKept(days: nat, now: int, start: int) {
    days == 0 || start >= now - days * DAY
  }

  ghost predicate RunsAt(run: seq<Round>, nows: seq<int>, keep: Retention) {
    IsRun(run, keep) && Nows(run) == nows
  }

  // ----- days -----

  ghost function TrueDays(run: seq<Round>, end: int): Table {
    Aggregate(Seen(run), Minute, Day, None, end)
  }

  /** In the table the run leaves, a day's row is the roll-up of every minute of it up to the last cut, or missing if there was none. */
  ghost predicate DayIsRight(run: seq<Round>, keep: Retention, day: Key)
    requires run != []
  {
    var r := run[|run| - 1];
    SameAt(r.left, TrueDays(run, MinuteCut(r.now, keep)), day)
  }

  ghost predicate DayIsComplete(nows: seq<int>, keep: Retention, start: int)
    requires nows != []
  {
    forall run: seq<Round>, day: Key | RunsAt(run, nows, keep) && day.granularity.Day? && day.start == start :: DayIsRight(run, keep, day)
  }

  lemma KeptRow(rows: Table, left: Table, g: Granularity, days: nat, now: int, k: Key)
    requires OfGranularity(left, g) == TrimmedIf(rows, g, days, now) && k.granularity == g && IsKept(days, now, k.start)
    ensures SameAt(left, rows, k)
  {
    assert SameAt(left, OfGranularity(left, g), k);
  }

  lemma LayersOfRun(run: seq<Round>, nows: seq<int>, keep: Retention)
    requires RunsAt(run, nows, keep)
    ensures Timely(run, keep) && MinuteParts(run, keep) && DayParts(run, keep) && WeekParts(run, keep) && AllQueries(run, keep)
    ensures MinutesHold(run, keep) && Rising(nows) && Ordered(MinuteTimes(nows, keep))
  {
    PartsOfRun(run, keep);
    MinutesMirror(run, keep);
    TimesRise(run, keep);
    TimesAreOrdered(nows, keep);
  }

  lemma QueriesAt(run: seq<Round>, nows: seq<int>, keep: Retention, j: nat)
    requires RunsAt(run, nows, keep) && j < |nows|
    ensures Queries(run[j], keep) && run[j].now == nows[j]
  {
    PartsOfRun(run, keep);
    assert run[j].now == Nows(run)[j];
  }

  lemma RunRises(run: seq<Round>, nows: seq<int>, keep: Retention)
    requires RunsAt(run, nows, keep)
    ensures Rising(nows)
  {
    PartsOfRun(run, keep);
    TimesRise(run, keep);
  }

  /** Whether or not they are still in the table, the rolled-up days are right where no cut fell inside. */
  lemma DaysAreRight(run: seq<Round>, nows: seq<int>, keep: Retention, day: Key)
    requires RunsAt(run, nows, keep) && nows != []
    requires Aligned(Day, day.start) && NoCutInside(Minute, Day, day.start, MinuteTimes(nows, keep))
    ensures SameAt(Days(run), TrueDays(run, MinuteCut(Last(nows), keep)), day)
  {
    var stock, times := MinuteLayer(run, nows, keep);
    RowIsComplete(Minute, Day, stock, times, day);
    AggregateOfPart(Seen(run), TrueDays(run, MinuteCut(Last(nows), keep)), Minute, Day, MinuteCut(Last(nows), keep));
  }

  lemma MinuteLayer(run: seq<Round>, nows: seq<int>, keep: Retention) returns (stock: seq<Table>, times: seq<Times>)
    requires RunsAt(run, nows, keep)
    ensures times == MinuteTimes(nows, keep) && Feasible(Minute, stock, times) && Ordered(times)
    ensures Ever(stock, times) == OfGranularity(Seen(run), Minute) && Coarse(Minute, Day, stock, times) == Days(run)
  {
    stock, times := MinuteStock(run), MinuteTimes(nows, keep);
    LayersOfRun(run, nows, keep);
    DaysAreCoarse(run, keep);
  }

  lemma UncutDayIsRight(run: seq<Round>, nows: seq<int>, keep: Retention, day: Key)
    requires RunsAt(run, nows, keep) && nows != []
    requires day.granularity.Day? && Aligned(Day, day.start) && NoCutInside(Minute, Day, day.start, MinuteTimes(nows, keep))
    requires IsKept(keep.day, Last(nows), day.start)
    ensures DayIsRight(run, keep, day)
  {
    DaysAreRight(run, nows, keep, day);
    KeptDay(run, nows, keep, day);
  }

  lemma KeptDay(run: seq<Round>, nows: seq<int>, keep: Retention, day: Key)
    requires RunsAt(run, nows, keep) && nows != [] && day.granularity.Day? && IsKept(keep.day, Last(nows), day.start)
    ensures SameAt(run[|run| - 1].left, Days(run), day)
    ensures run[|run| - 1].now == Last(nows)
  {
    LayersOfRun(run, nows, keep);
    DaysMirror(run, keep);
    KeptRow(Days(run), run[|run| - 1].left, Day, keep.day, Last(nows), day);
  }

  // ----- runs in which rows are added before the first cleanup only -----

  lemma NextRound(before: Table, batch: seq<Row>, now: int, keep: Retention) returns (r: Round)
    ensures IsRound(before, r, keep) && r.batch == batch && r.now == now
  {
    var found, days, rolled := WhatIsRolledUp(before, batch, MinuteCut(now, keep));
    r := RestOfRound(before, batch, now, keep, found, days, rolled);
  }

  lemma WhatIsRolledUp(before: Table, batch: seq<Row>, end: int) returns (found: Table, days: Table, rolled: Table)
    ensures found == IncrementAll(before, batch) && days == Aggregate(found, Minute, Day, None, end) && rolled == found + days
  {
    found := IncrementAll(before, batch);
    days := Aggregate(found, Minute, Day, None, end);
    rolled := found + days;
  }

  lemma RestOfRound(before: Table, batch: seq<Row>, now: int, keep: Retention, found: Table, days: Table, rolled: Table) returns (r: Round)
    requires found == IncrementAll(before, batch)
    requires days == Aggregate(found, Minute, Day, None, MinuteCut(now, keep)) && rolled == found + days
    ensures IsRound(before, r, keep) && r.batch == batch && r.now == now
  {
    var weeks, left := WeeksAndLeft(rolled, now, keep);
    r := Round(now, batch, found, days, rolled, weeks, left);
  }

  lemma WeeksAndLeft(rolled: Table, now: int, keep: Retention) returns (weeks: Table, left: Table)
    ensures weeks == Aggregate(rolled, Day, Week, None, now - 7 * DAY) && left == Retained(rolled + weeks, now, keep)
  {
    weeks := WhatIsQueried(rolled, Day, Week, now - 7 * DAY);
    left := WhatIsLeft(rolled + weeks, now, keep);
  }

  lemma WhatIsQueried(t: Table, from: Granularity, to: Granularity, end: int) returns (rows: Table)
    ensures rows == Aggregate(t, from, to, None, end)
  {
    rows := Aggregate(t, from, to, None, end);
  }

  lemma WhatIsLeft(t: Table, now: int, keep: Retention) returns (left: Table)
    ensures left == Retained(t, now, keep)
  {
    left := Retained(t, now, keep);
  }

  lemma {:induction false} QuietRun(rows: seq<Row>, nows: seq<int>, keep: Retention) returns (run: seq<Round>)
    requires Rising(nows) && forall row | row in rows :: Arrives(row)
    ensures RunsAt(run, nows, keep) && |run| == |nows| && (forall i | 0 < i < |nows| :: run[i].batch == [])
    ensures nows != [] ==> run[0].batch == rows && Seen(run) == IncrementAll(map[], rows)
  {
    run := [];
    if nows != [] {
      var n := |nows| - 1;
      var shorter := QuietRun(rows, nows[..n], keep);
      var r := NextRound(LeftBefore(shorter, n), if n == 0 then rows else [], nows[n], keep);
      run := shorter + [r];
      OneMoreQuiet(rows, nows, keep, shorter, run);
      QuietBatches(rows, shorter, run);
    }
  }

  lemma OneMoreQuiet(rows: seq<Row>, nows: seq<int>, keep: Retention, shorter: seq<Round>, run: seq<Round>)
    requires Rising(nows) && |run| == |nows| == |shorter| + 1 && (forall row | row in rows :: Arrives(row))
    requires var n := |shorter|;
             && RunsAt(shorter, nows[..n], keep) && run[..n] == shorter
             && run[n].now == nows[n] && run[n].batch == (if n == 0 then rows else [])
             && IsRound(LeftBefore(shorter, n), run[n], keep)
    ensures RunsAt(run, nows, keep)
  {
    forall i | 0 <= i < |run|
      ensures RoundAt(run, i, keep) && run[i].now == nows[i]
    {
      QuietRound(nows, keep, shorter, run, i);
    }
  }

  lemma QuietBatches(rows: seq<Row>, shorter: seq<Round>, run: seq<Round>)
    requires |run| == |shorter| + 1 && run[..|shorter|] == shorter && run[|shorter|].batch == (if shorter == [] then rows else [])
    requires forall i | 0 < i < |shorter| :: shorter[i].batch == []
    requires shorter != [] ==> shorter[0].batch == rows && Seen(shorter) == IncrementAll(map[], rows)
    ensures forall i | 0 < i < |run| :: run[i].batch == []
    ensures run[0].batch == rows && Seen(run) == IncrementAll(map[], rows)
  {
    forall i | 0 <= i < |shorter|
      ensures run[i] == shorter[i]
    {
    }
  }

  lemma QuietRound(nows: seq<int>, keep: Retention, shorter: seq<Round>, run: seq<Round>, i: nat)
    requires Rising(nows) && i < |run| == |nows| && |shorter| == |nows| - 1
    requires RunsAt(shorter, nows[..|nows| - 1], keep) && run[..|nows| - 1] == shorter
    requires var r := run[|nows| - 1];
             && IsRound(LeftBefore(shorter, |nows| - 1), r, keep) && r.now == nows[|nows| - 1]
             && (forall row | row in r.batch :: Arrives(row)) && (|nows| > 1 ==> r.batch == [])
    ensures RoundAt(run, i, keep) && run[i].now == nows[i]
  {
    assert LeftBefore(run, i) == LeftBefore(shorter, i);
    if i < |shorter| {
      assert RoundAt(shorter, i, keep) && shorter[i].now == Nows(shorter)[i] && run[i] == shorter[i];
      assert i > 0 ==> run[i - 1] == shorter[i - 1];
    } else if i > 0 {
      assert run[i - 1] == shorter[i - 1] && shorter[i - 1].now == Nows(shorter)[i - 1];
    }
  }

  /** The minutes of such a run are those of the start, after the last cut. */
  lemma {:induction false} QuietMinutes(run: seq<Round>, keep: Retention, t: Table, j: nat)
    requires Timely(run, keep) && MinuteParts(run, keep) && Rising(Nows(run)) && j < |run|
    requires MinuteStock(run)[0] == t && forall i | 0 < i < |run| :: run[i].batch == []
    ensures MinuteStock(run)[j] == if j == 0 then t else Trimmed(t, Minute, MinuteCut(run[j - 1].now, keep))
  {
    if j > 0 {
      QuietMinutes(run, keep, t, j - 1);
      assert MinutesAt(run, j, keep) && MinutesAt(run, j - 1, keep);
      assert run[j].found == run[j - 1].left;
      if j > 1 {
        assert Nows(run)[j - 2] <= Nows(run)[j - 1];
      }
    }
  }

  /** At the start `t`, and later what the last cut left of it. */
  predicate IsLeft(stock: seq<Table>, times: seq<Times>, t: Table, j: nat)
    requires j < |stock| == |times|
  {
    stock[j] == if j == 0 then t else Trimmed(t, Minute, times[j - 1].cut)
  }

  function Two(k: Key, l: Key): seq<Row> {
    [Row(k, ONE), Row(l, ONE)]
  }

  lemma AddTwo(k: Key, l: Key)
    requires k != l
    ensures IncrementAll(map[], Two(k, l)) == map[k := ONE, l := ONE]
  {
    var rows, none: Table := Two(k, l), map[];
    var one := Increment(none, rows[0]);
    assert rows[1..] == [rows[1]] && rows[1..][1..] == [];
    assert IncrementAll(none, rows) == IncrementAll(one, rows[1..]) == IncrementAll(Increment(one, rows[1]), []);
    assert one == map[k := ONE];
  }

  lemma FirstFound(run: seq<Round>, keep: Retention, t: Table)
    requires IsRun(run, keep) && run != [] && t == IncrementAll(map[], run[0].batch) && OfGranularity(t, Minute) == t
    ensures MinuteStock(run)[0] == t
  {
    assert RoundAt(run, 0, keep) && LeftBefore(run, 0) == map[];
  }

  /** Two minutes are added at the start, and the run goes on without any more. */
  lemma TwoMinutes(k: Key, l: Key, nows: seq<int>, keep: Retention, t: Table) returns (run: seq<Round>)
    requires k != l && k.granularity.Minute? && l.granularity.Minute? && Aligned(Minute, k.start) && Aligned(Minute, l.start)
    requires Rising(nows) && nows != [] && t == map[k := ONE, l := ONE]
    ensures RunsAt(run, nows, keep) && Seen(run) == t
    ensures forall j | 0 <= j < |nows| :: IsLeft(MinuteStock(run), MinuteTimes(nows, keep), t, j)
  {
    AddTwo(k, l);
    run := QuietRun(Two(k, l), nows, keep);
    FirstFound(run, keep, t);
    LayersOfRun(run, nows, keep);
    forall j | 0 <= j < |nows|
      ensures IsLeft(MinuteStock(run), MinuteTimes(nows, keep), t, j)
    {
      QuietMinutes(run, keep, t, j);
      assert j > 0 ==> run[j - 1].now == Nows(run)[j - 1];
    }
  }

  const DIMS := Dims("", "", "", 2, "")

  /** No row but this one, and it counts one. */
  predicate AtMostOne(t: Table, row: Key) {
    forall k | k in t :: k == row && t[k] == ONE
  }

  /** No cleanup finds a row before the cut together with one after it. */
  lemma OnlyOneMinute(stock: seq<Table>, times: seq<Times>, i: nat, j: nat, k: Key, l: Key, t: Table)
    requires |stock| == |times| && 0 < i < |times| && j < |times| && IsLeft(stock, times, t, j)
    requires if i <= j then times[i - 1].cut <= times[j - 1].cut else times[j].end <= times[i - 1].cut
    requires t == map[k := ONE, l := ONE] && k.granularity.Minute? && k.start < times[i - 1].cut <= l.start
    ensures i <= j ==> OnlySees(stock[j], Minute, Day, times[j].end, l)
    ensures i > j ==> OnlySees(stock[j], Minute, Day, times[j].end, k)
    ensures forall f | f in stock[j] :: f == k || f == l
  {
  }

  lemma QueryOfOne(fine: Table, end: int, k: Key, l: Key, one: Key, day: Key)
    requires OnlySees(fine, Minute, Day, end, one) && (one == k || one == l) && forall f | f in fine :: f == k || f == l
    requires Bucket(Day)(k) == day == Bucket(Day)(l)
    ensures AtMostOne(Aggregate(fine, Minute, Day, None, end), day)
  {
    AggregateOfOne(fine, Minute, Day, end, one);
    forall g | g in Aggregate(fine, Minute, Day, None, end)
      ensures g == day
    {
      AggregateIsOf(fine, Minute, Day, None, end, g);
    }
  }

  lemma {:induction false} OverlaidAtMostOne(more: seq<Table>, row: Key)
    requires forall j | 0 <= j < |more| :: AtMostOne(more[j], row)
    ensures AtMostOne(Overlaid(more), row)
  {
    if more != [] {
      OverlaidAtMostOne(more[..|more| - 1], row);
    }
  }

  lemma {:induction false} OverlaidHas(more: seq<Table>, k: Key)
    ensures k in Overlaid(more) <==> exists j :: 0 <= j < |more| && k in more[j]
  {
    if more != [] {
      var n := |more| - 1;
      OverlaidHas(more[..n], k);
      if j :| 0 <= j < |more| && k in more[j] {
        assert j < n ==> k in more[..n][j];
      }
      if j :| 0 <= j < n && k in more[..n][j] {
        assert k in more[j];
      }
    }
  }

  /** A cut inside a day: of two requests, one before the cut and one after, no roll-up sees both, and the last one sees one. */
  lemma CutDayIsOverwritten(nows: seq<int>, keep: Retention, day: Key, i: nat) returns (run: seq<Round>)
    requires Rising(nows) && 0 < i < |nows| && Aligned(Day, day.start) && day.granularity.Day?
    requires CutInside(Minute, Day, day.start, MinuteCut(nows[i - 1], keep), MinuteCut(nows[i], keep))
    ensures RunsAt(run, nows, keep) && forall j | 0 <= j < |nows| :: AtMostOne(DayQueries(run)[j], day)
    ensures day in Days(run) && Days(run)[day] == ONE
    ensures TrueDays(run, MinuteCut(Last(nows), keep)) == map[day := Vals(2, 0, 0, 0)]
  {
    var first := Ceiling(Minute, MinuteCut(nows[i - 1], keep));
    var k, l := Key(Minute, day.start, day.dims), Key(Minute, first, day.dims);
    var t: Table := map[k := ONE, l := ONE];
    FloorTwice(Minute, Day, day.start);
    CeilingIsFirst(Minute, MinuteCut(nows[i - 1], keep), day.start);
    assert Bucket(Day)(l) == day == Bucket(Day)(k);
    run := TwoMinutes(k, l, nows, keep, t);
    forall j | 0 <= j < |nows|
      ensures AtMostOne(DayQueries(run)[j], day) && (j == i ==> day in DayQueries(run)[j])
    {
      CutDayQuery(run, nows, keep, day, i, j, k, l, t);
    }
    OverlaidAtMostOne(DayQueries(run), day);
    OverlaidHas(DayQueries(run), day);
    assert nows[i] <= Last(nows);
    AggregateOfTwo(Minute, Day, k, l, MinuteCut(Last(nows), keep));
  }

  lemma CutDayQuery(run: seq<Round>, nows: seq<int>, keep: Retention, day: Key, i: nat, j: nat, k: Key, l: Key, t: Table)
    requires RunsAt(run, nows, keep) && 0 < i < |nows| && j < |nows| && k.granularity.Minute? && l.granularity.Minute?
    requires Bucket(Day)(k) == day == Bucket(Day)(l) && t == map[k := ONE, l := ONE]
    requires k.start < MinuteCut(nows[i - 1], keep) <= l.start < MinuteCut(nows[i], keep)
    requires IsLeft(MinuteStock(run), MinuteTimes(nows, keep), t, j)
    ensures AtMostOne(DayQueries(run)[j], day) && (j == i ==> day in DayQueries(run)[j])
  {
    RunRises(run, nows, keep);
    assert if i <= j then nows[i - 1] <= nows[j - 1] else nows[j] <= nows[i - 1];
    DayQueryIs(run, nows, keep, j);
    CutQuery(MinuteStock(run), MinuteTimes(nows, keep), day, i, j, k, l, t, DayQueries(run)[j]);
  }

  lemma DayQueryIs(run: seq<Round>, nows: seq<int>, keep: Retention, j: nat)
    requires RunsAt(run, nows, keep) && j < |nows|
    ensures DayQueries(run)[j] == Aggregate(MinuteStock(run)[j], Minute, Day, None, MinuteTimes(nows, keep)[j].end)
  {
    QueriesAt(run, nows, keep, j);
  }

  lemma CutQuery(stock: seq<Table>, times: seq<Times>, day: Key, i: nat, j: nat, k: Key, l: Key, t: Table, days: Table)
    requires |stock| == |times| && 0 < i < |times| && j < |times| && k.granularity.Minute? && l.granularity.Minute?
    requires Bucket(Day)(k) == day == Bucket(Day)(l) && t == map[k := ONE, l := ONE] && IsLeft(stock, times, t, j)
    requires k.start < times[i - 1].cut <= l.start < times[i].end
    requires if i <= j then times[i - 1].cut <= times[j - 1].cut else times[j].end <= times[i - 1].cut
    requires days == Aggregate(stock[j], Minute, Day, None, times[j].end)
    ensures AtMostOne(days, day) && (j == i ==> day in days)
  {
    OnlyOneMinute(stock, times, i, j, k, l, t);
    QueryOfOne(stock[j], times[j].end, k, l, if i <= j then l else k, day);
    if j == i {
      AggregateOfOne(stock[j], Minute, Day, times[j].end, l);
    }
  }

  lemma CutDayIsWrong(nows: seq<int>, keep: Retention, day: Key, i: nat) returns (run: seq<Round>)
    requires Rising(nows) && 0 < i < |nows| && Aligned(Day, day.start) && day.granularity.Day?
    requires IsKept(keep.day, Last(nows), day.start)
    requires CutInside(Minute, Day, day.start, MinuteCut(nows[i - 1], keep), MinuteCut(nows[i], keep))
    ensures RunsAt(run, nows, keep) && !DayIsRight(run, keep, day)
  {
    run := CutDayIsOverwritten(nows, keep, day, i);
    KeptDay(run, nows, keep, day);
  }

  /**
   After any number of cleanups, a day whose row is still kept holds every minute of it that was
   ever added and rolled up, whatever was added, exactly when no cleanup cut inside the day, in
   whole minutes, and left minutes of it to the next one.
   */
  lemma DayIsCompleteIff(nows: seq<int>, keep: Retention, start: int)
    requires Rising(nows) && nows != [] && Aligned(Day, start) && IsKept(keep.day, Last(nows), start)
    ensures DayIsComplete(nows, keep, start) <==> NoCutInside(Minute, Day, start, MinuteTimes(nows, keep))
  {
    if NoCutInside(Minute, Day, start, MinuteTimes(nows, keep)) {
      forall run: seq<Round>, day: Key | RunsAt(run, nows, keep) && day.granularity.Day? && day.start == start
        ensures DayIsRight(run, keep, day)
      {
        UncutDayIsRight(run, nows, keep, day);
      }
    } else {
      var times := MinuteTimes(nows, keep);
      var i :| 0 < i < |times| && CutAt(Minute, Day, start, times, i);
      var run := CutDayIsWrong(nows, keep, Key(Day, start, DIMS), i);
    }
  }

  // ----- cleanups at the same time every day -----

  lemma ShiftedMinute(x: int, m: int)
    ensures (x - m * 60) / 60 * 60 == x / 60 * 60 - m * 60
  {
  }

  lemma ShiftedDay(x: int, d: int)
    ensures (x - d * DAY) / DAY * DAY == x / DAY * DAY - d * DAY
  {
  }

  lemma CutOfTheDay(now: int, keep: Retention)
    requires !Aligned(Day, Ceiling(Minute, now))
    ensures var cut := MinuteCut(now, keep); CutInside(Minute, Day, Floor(Day, cut), cut, cut + DAY)
  {
    var cut, latest := MinuteCut(now, keep), Ceiling(Minute, now);
    ShiftedMinute(now + 59, keep.fine * 1440);
    ShiftedDay(latest, keep.fine);
    FirstOfTheDay(cut, cut / DAY);
  }

  lemma FirstOfTheDay(cut: int, day: int)
    requires day == cut / DAY && !Aligned(Day, Ceiling(Minute, cut))
    ensures CutInside(Minute, Day, Floor(Day, cut), cut, cut + DAY)
  {
    var first := Ceiling(Minute, cut);
    DaysAreMinutes(day + 1);
    DayOfStart(day + 1);
    CeilingIsFirst(Minute, cut, (day + 1) * DAY);
    assert cut <= first < cut + 60;
    assert day * DAY <= cut < (day + 1) * DAY;
    DayOfStart(day);
    assert first != day * DAY && first != (day + 1) * DAY;
    assert first / DAY == day;
  }

  /**
   Cleanups a day apart, at any time but midnight in whole minutes: the day that the first one
   cuts into is not complete after the second, nor after any later one while its row is kept.
   */
  lemma DailyCleanupsLose(nows: seq<int>, keep: Retention, i: nat)
    requires Rising(nows) && 0 < i < |nows| && nows[i] == nows[i - 1] + DAY && !Aligned(Day, Ceiling(Minute, nows[i - 1]))
    requires IsKept(keep.day, Last(nows), Floor(Day, MinuteCut(nows[i - 1], keep)))
    ensures !DayIsComplete(nows, keep, Floor(Day, MinuteCut(nows[i - 1], keep)))
  {
    var start := Floor(Day, MinuteCut(nows[i - 1], keep));
    CutOfTheDay(nows[i - 1], keep);
    FloorBounds(Day, MinuteCut(nows[i - 1], keep));
    var times := MinuteTimes(nows, keep);
    assert CutAt(Minute, Day, start, times, i);
    DayIsCompleteIff(nows, keep, start);
  }

  /** The configuration as shipped: every night at ten past two, with minutes kept for 45 days and days for 365. */
  lemma ShippedCleanupsLose(day: int)
    ensures var nows := [day * DAY + 7800, (day + 1) * DAY + 7800];
            !DayIsComplete(nows, Retention(45, 365, 0), (day - 45) * DAY)
  {
    var nows, keep := [day * DAY + 7800, (day + 1) * DAY + 7800], Retention(45, 365, 0);
    TenPastTwo(day);
    TenPastTwo(day - 45);
    DailyCleanupsLose(nows, keep, 1);
  }

  lemma TenPastTwo(day: int)
    ensures Ceiling(Minute, day * DAY + 7800) == day * DAY + 7800 && (day * DAY + 7800) / DAY == day
  {
    assert day * DAY + 7800 == (day * 1440 + 130) * 60;
  }
}
