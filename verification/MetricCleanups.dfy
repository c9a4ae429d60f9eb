/** Runs of the metrics store: minutes are added, and every so often a cleanup rolls up and deletes. */
module MetricCleanups {
  import opened Wrappers
  import opened MetricRollup
  import opened CleanupRuns
  import opened MetricStore

  function MinuteCut(now: int, keep: Retention): int {
    now - keep.fine * DAY
  }

  /**
   The rows added since the last cleanup, the table a cleanup finds, what its first query
   returns, the table with those days in it, what its second query returns, and what it leaves.
   */
  datatype Round = Round(now: int, batch: seq<Row>, found: Table, days: Table, rolled: Table, weeks: Table, left: Table)

  ghost predicate IsRound(before: Table, r: Round, keep: Retention) {
    && r.found == IncrementAll(before, r.batch)
    && r.days == Aggregate(r.found, Minute, Day, None, MinuteCut(r.now, keep))
    && r.rolled == r.found + r.days
    && r.weeks == Aggregate(r.rolled, Day, Week, None, r.now - 7 * DAY)
    && r.left == Retained(r.rolled + r.weeks, r.now, keep)
  }

  /** A round is what RollupAndCleanup does to the table it finds. */
  lemma RoundIsCleanup(found: Table, days: Table, rolled: Table, weeks: Table, now: int, keep: Retention)
    requires days == Aggregate(found, Minute, Day, None, MinuteCut(now, keep)) && rolled == found + days
    requires weeks == Aggregate(rolled, Day, Week, None, now - 7 * DAY)
    ensures CleanedUp(found, now, keep) == Retained(rolled + weeks, now, keep)
  {
    BothRollups(found, days, rolled, weeks, now, keep, RolledUp(found, now, keep));
  }

  lemma BothRollups(found: Table, days: Table, rolled: Table, weeks: Table, now: int, keep: Retention, both: Table)
    requires days == Aggregate(found, Minute, Day, None, MinuteCut(now, keep)) && rolled == found + days
    requires weeks == Aggregate(rolled, Day, Week, None, now - 7 * DAY) && both == RolledUp(found, now, keep)
    ensures both == rolled + weeks
  {
    DaysRolledIs(found, days, now, keep);
    RolledUpIs(found, rolled, now, keep);
    WeeksRolledIs(rolled, weeks, now);
  }

  lemma RolledUpIs(found: Table, rolled: Table, now: int, keep: Retention)
    requires rolled == DaysRolled(found, now, keep)
    ensures RolledUp(found, now, keep) == WeeksRolled(rolled, now)
  {
  }

  lemma DaysRolledIs(found: Table, days: Table, now: int, keep: Retention)
    requires days == Aggregate(found, Minute, Day, None, MinuteCut(now, keep))
    ensures DaysRolled(found, now, keep) == found + days
  {
    RolledIs(found, days, Minute, Day, MinuteCut(now, keep));
  }

  lemma WeeksRolledIs(rolled: Table, weeks: Table, now: int)
    requires weeks == Aggregate(rolled, Day, Week, None, now - 7 * DAY)
    ensures WeeksRolled(rolled, now) == rolled + weeks
  {
    RolledIs(rolled, weeks, Day, Week, now - 7 * DAY);
  }

  lemma RolledIs(t: Table, more: Table, from: Granularity, to: Granularity, end: int)
    requires more == Aggregate(t, from, to, None, end)
    ensures Rolled(t, from, to, None, end) == t + more
  {
  }

  predicate Arrives(row: Row) {
    (row.key.granularity.Minute? || row.key.granularity.FiveMinutes?) && Aligned(row.key.granularity, row.key.start)
  }

  /** The clock does not go back, and no row arrives for a time that a cleanup has already cut off. */
  predicate InTime(run: seq<Round>, i: nat, keep: Retention)
    requires i < |run|
  {
    && (forall row | row in run[i].batch :: Arrives(row))
    && (i > 0 ==>
          && run[i - 1].now <= run[i].now
          && forall row | row in run[i].batch :: row.key.start >= MinuteCut(run[i - 1].now, keep))
  }

  function LeftBefore(run: seq<Round>, i: nat): Table
    requires i <= |run|
  {
    if i == 0 then map[] else run[i - 1].left
  }

  ghost predicate RoundAt(run: seq<Round>, i: nat, keep: Retention)
    requires i < |run|
  {
    IsRound(LeftBefore(run, i), run[i], keep) && InTime(run, i, keep)
  }

  ghost predicate IsRun(run: seq<Round>, keep: Retention) {
    forall i | 0 <= i < |run| :: RoundAt(run, i, keep)
  }

  /** Everything that was ever added. */
  function Seen(run: seq<Round>): Table {
    if run == [] then map[]
    else IncrementAll(Seen(run[..|run| - 1]), run[|run| - 1].batch)
  }

  predicate Rising(nows: seq<int>) {
    forall i, j | 0 <= i < j < |nows| :: nows[i] <= nows[j]
  }

  // ----- adding rows -----

  lemma {:induction false} UntouchedRow(t: Table, rows: seq<Row>, k: Key)
    requires forall row | row in rows :: row.key != k
    ensures SameAt(IncrementAll(t, rows), t, k)
    decreases |rows|
  {
    if rows != [] {
      UntouchedRow(Increment(t, rows[0]), rows[1..], k);
    }
  }

  lemma {:induction false} AddedAlike(t: Table, u: Table, rows: seq<Row>, k: Key)
    requires SameAt(t, u, k)
    ensures SameAt(IncrementAll(t, rows), IncrementAll(u, rows), k)
    decreases |rows|
  {
    if rows != [] {
      AddedAlike(Increment(t, rows[0]), Increment(u, rows[0]), rows[1..], k);
    }
  }

  lemma {:induction false} RowStays(t: Table, rows: seq<Row>, k: Key)
    requires k in t
    ensures k in IncrementAll(t, rows)
    decreases |rows|
  {
    if rows != [] {
      RowStays(Increment(t, rows[0]), rows[1..], k);
    }
  }

  lemma {:induction false} RowOrigin(t: Table, rows: seq<Row>, k: Key)
    requires k in IncrementAll(t, rows) && k !in t
    ensures exists row :: row in rows && row.key == k
    decreases |rows|
  {
    if rows != [] && rows[0].key != k {
      RowOrigin(Increment(t, rows[0]), rows[1..], k);
      var row :| row in rows[1..] && row.key == k;
      assert row in rows;
    }
  }

  // ----- one cleanup, granularity by granularity -----

  lemma AggregateGranularity(t: Table, from: Granularity, to: Granularity, end: int)
    ensures forall k | k in Aggregate(t, from, to, None, end) :: k.granularity == to
  {
    forall k | k in Aggregate(t, from, to, None, end)
      ensures k.granularity == to
    {
      AggregateIsOf(t, from, to, None, end, k);
    }
  }

  lemma AggregateOfPart(t: Table, more: Table, from: Granularity, to: Granularity, end: int)
    requires more == Aggregate(t, from, to, None, end)
    ensures more == Aggregate(OfGranularity(t, from), from, to, None, end)
  {
    assert Select(OfGranularity(t, from), from, None, end) == Select(t, from, None, end);
  }

  lemma DayQueryOfPart(found: Table, days: Table, end: int)
    requires days == Aggregate(found, Minute, Day, None, end)
    ensures DayQuery(found, days, end)
  {
    AggregateOfPart(found, days, Minute, Day, end);
  }

  lemma WeekQueryOfPart(rolled: Table, weeks: Table, end: int)
    requires weeks == Aggregate(rolled, Day, Week, None, end)
    ensures WeekQuery(rolled, weeks, end)
  {
    AggregateOfPart(rolled, weeks, Day, Week, end);
  }

  lemma PartOfSum(t: Table, agg: Table, to: Granularity, h: Granularity)
    requires forall k | k in agg :: k.granularity == to
    ensures OfGranularity(t + agg, h) == if h == to then OfGranularity(t, h) + agg else OfGranularity(t, h)
  {
  }

  lemma RetainedPart(t: Table, now: int, keep: Retention, h: Granularity)
    requires h != FiveMinutes
    ensures OfGranularity(Retained(t, now, keep), h) ==
            match h
            case Day => TrimmedIf(OfGranularity(t, Day), Day, keep.day, now)
            case Week => TrimmedIf(OfGranularity(t, Week), Week, keep.week, now)
            case _ => Trimmed(OfGranularity(t, h), Minute, MinuteCut(now, keep))
  {
  }

  lemma SumOfAggregate(t: Table, more: Table, from: Granularity, to: Granularity, end: int, h: Granularity)
    requires more == Aggregate(t, from, to, None, end)
    ensures OfGranularity(t + more, h) == if h == to then OfGranularity(t, h) + more else OfGranularity(t, h)
  {
    AggregateGranularity(t, from, to, end);
    PartOfSum(t, more, to, h);
  }

  lemma AddedElsewhere(t: Table, batch: seq<Row>, g: Granularity)
    requires (g.Day? || g.Week?) && forall row | row in batch :: Arrives(row)
    ensures OfGranularity(IncrementAll(t, batch), g) == OfGranularity(t, g)
  {
    var u := IncrementAll(t, batch);
    forall k
      ensures k in OfGranularity(u, g) <==> k in OfGranularity(t, g)
      ensures k in OfGranularity(u, g) ==> OfGranularity(u, g)[k] == OfGranularity(t, g)[k]
    {
      if k.granularity == g {
        UntouchedRow(t, batch, k);
      }
    }
  }

  /** The same for the tables of a round. */
  ghost predicate MinutePart(r: Round, keep: Retention) {
    OfGranularity(r.left, Minute) == Trimmed(OfGranularity(r.found, Minute), Minute, MinuteCut(r.now, keep))
  }

  ghost predicate DayPart(before: Table, r: Round, keep: Retention) {
    && OfGranularity(r.rolled, Day) == OfGranularity(before, Day) + r.days
    && OfGranularity(r.left, Day) == TrimmedIf(OfGranularity(r.rolled, Day), Day, keep.day, r.now)
  }

  ghost predicate WeekPart(before: Table, r: Round, keep: Retention) {
    OfGranularity(r.left, Week) == TrimmedIf(OfGranularity(before, Week) + r.weeks, Week, keep.week, r.now)
  }

  /** The two queries in terms of the rows they group. */
  ghost predicate Queries(r: Round, keep: Retention) {
    DayQuery(r.found, r.days, MinuteCut(r.now, keep)) && WeekQuery(r.rolled, r.weeks, r.now - 7 * DAY)
  }

  ghost predicate DayQuery(found: Table, days: Table, end: int) {
    days == Aggregate(OfGranularity(found, Minute), Minute, Day, None, end)
  }

  ghost predicate WeekQuery(rolled: Table, weeks: Table, end: int) {
    weeks == Aggregate(OfGranularity(rolled, Day), Day, Week, None, end)
  }

  /** What a round leaves of one granularity, in terms of what it has rolled up. */
  lemma LeftPart(r: Round, keep: Retention, h: Granularity)
    requires r.days == Aggregate(r.found, Minute, Day, None, MinuteCut(r.now, keep)) && r.rolled == r.found + r.days
    requires r.weeks == Aggregate(r.rolled, Day, Week, None, r.now - 7 * DAY)
    requires r.left == Retained(r.rolled + r.weeks, r.now, keep) && h != FiveMinutes
    ensures OfGranularity(r.rolled, h) == if h.Day? then OfGranularity(r.found, h) + r.days else OfGranularity(r.found, h)
    ensures OfGranularity(r.left, h) ==
            match h
            case Day => TrimmedIf(OfGranularity(r.rolled, h), Day, keep.day, r.now)
            case Week => TrimmedIf(OfGranularity(r.rolled, h) + r.weeks, Week, keep.week, r.now)
            case _ => Trimmed(OfGranularity(r.rolled, h), Minute, MinuteCut(r.now, keep))
  {
    SumOfAggregate(r.found, r.days, Minute, Day, MinuteCut(r.now, keep), h);
    SumOfAggregate(r.rolled, r.weeks, Day, Week, r.now - 7 * DAY, h);
    RetainedPart(r.rolled + r.weeks, r.now, keep, h);
  }

  // ----- a run as a run of each pair of granularities -----

  // What the layers need to know of a run.

  ghost predicate Timely(run: seq<Round>, keep: Retention) {
    forall i | 0 <= i < |run| :: InTime(run, i, keep)
  }

  ghost predicate MinutesAt(run: seq<Round>, i: nat, keep: Retention)
    requires i < |run|
  {
    run[i].found == IncrementAll(LeftBefore(run, i), run[i].batch) && MinutePart(run[i], keep)
  }

  ghost predicate DaysAt(run: seq<Round>, i: nat, keep: Retention)
    requires i < |run|
  {
    DayPart(LeftBefore(run, i), run[i], keep)
  }

  ghost predicate WeeksAt(run: seq<Round>, i: nat, keep: Retention)
    requires i < |run|
  {
    WeekPart(LeftBefore(run, i), run[i], keep)
  }

  ghost predicate MinuteParts(run: seq<Round>, keep: Retention) {
    forall i | 0 <= i < |run| :: MinutesAt(run, i, keep)
  }

  ghost predicate DayParts(run: seq<Round>, keep: Retention) {
    forall i | 0 <= i < |run| :: DaysAt(run, i, keep)
  }

  ghost predicate WeekParts(run: seq<Round>, keep: Retention) {
    forall i | 0 <= i < |run| :: WeeksAt(run, i, keep)
  }

  ghost predicate AllQueries(run: seq<Round>, keep: Retention) {
    forall i | 0 <= i < |run| :: Queries(run[i], keep)
  }

  lemma PartsOfRun(run: seq<Round>, keep: Retention)
    requires IsRun(run, keep)
    ensures Timely(run, keep) && MinuteParts(run, keep) && DayParts(run, keep) && WeekParts(run, keep) && AllQueries(run, keep)
  {
    forall i | 0 <= i < |run|
      ensures InTime(run, i, keep) && Queries(run[i], keep)
      ensures MinutesAt(run, i, keep) && DaysAt(run, i, keep) && WeeksAt(run, i, keep)
    {
      assert RoundAt(run, i, keep);
      PartsAt(run, i, keep);
    }
  }

  lemma PartsAt(run: seq<Round>, i: nat, keep: Retention)
    requires i < |run| && RoundAt(run, i, keep)
    ensures InTime(run, i, keep) && Queries(run[i], keep)
    ensures MinutesAt(run, i, keep) && DaysAt(run, i, keep) && WeeksAt(run, i, keep)
  {
    PartsOfRound(LeftBefore(run, i), run[i], keep);
  }

  lemma PartsOfRound(before: Table, r: Round, keep: Retention)
    requires IsRound(before, r, keep) && forall row | row in r.batch :: Arrives(row)
    ensures MinutePart(r, keep) && DayPart(before, r, keep) && WeekPart(before, r, keep) && Queries(r, keep)
  {
    QueriesOfRound(before, r, keep);
    LeftPart(r, keep, Minute);
    DaysOfRound(before, r, keep);
    WeeksOfRound(before, r, keep);
  }

  lemma QueriesOfRound(before: Table, r: Round, keep: Retention)
    requires IsRound(before, r, keep)
    ensures Queries(r, keep)
  {
    DayQueryOfRound(before, r, keep);
    WeekQueryOfRound(before, r, keep);
  }

  lemma DayQueryOfRound(before: Table, r: Round, keep: Retention)
    requires IsRound(before, r, keep)
    ensures DayQuery(r.found, r.days, MinuteCut(r.now, keep))
  {
    DayQueryOfPart(r.found, r.days, MinuteCut(r.now, keep));
  }

  lemma WeekQueryOfRound(before: Table, r: Round, keep: Retention)
    requires IsRound(before, r, keep)
    ensures WeekQuery(r.rolled, r.weeks, r.now - 7 * DAY)
  {
    WeekQueryOfPart(r.rolled, r.weeks, r.now - 7 * DAY);
  }

  lemma DaysOfRound(before: Table, r: Round, keep: Retention)
    requires IsRound(before, r, keep) && forall row | row in r.batch :: Arrives(row)
    ensures DayPart(before, r, keep)
  {
    LeftPart(r, keep, Day);
    AddedElsewhere(before, r.batch, Day);
  }

  lemma WeeksOfRound(before: Table, r: Round, keep: Retention)
    requires IsRound(before, r, keep) && forall row | row in r.batch :: Arrives(row)
    ensures WeekPart(before, r, keep)
  {
    LeftPart(r, keep, Week);
    AddedElsewhere(before, r.batch, Week);
  }

  lemma SamePrefix(run: seq<Round>, shorter: seq<Round>, i: nat, keep: Retention)
    requires i < |shorter| <= |run| && shorter == run[..|shorter|]
    ensures InTime(shorter, i, keep) == InTime(run, i, keep)
    ensures MinutesAt(shorter, i, keep) == MinutesAt(run, i, keep) && DaysAt(shorter, i, keep) == DaysAt(run, i, keep)
    ensures Queries(shorter[i], keep) == Queries(run[i], keep)
  {
    assert LeftBefore(shorter, i) == LeftBefore(run, i) && shorter[i] == run[i];
  }

  lemma TimelyPrefix(run: seq<Round>, keep: Retention)
    requires run != [] && Timely(run, keep)
    ensures Timely(run[..|run| - 1], keep)
  {
    var shorter := run[..|run| - 1];
    forall i | 0 <= i < |shorter|
      ensures InTime(shorter, i, keep)
    {
      SamePrefix(run, shorter, i, keep);
    }
  }

  lemma MinutePartsPrefix(run: seq<Round>, keep: Retention)
    requires run != [] && MinuteParts(run, keep)
    ensures MinuteParts(run[..|run| - 1], keep)
  {
    var shorter := run[..|run| - 1];
    forall i | 0 <= i < |shorter|
      ensures MinutesAt(shorter, i, keep)
    {
      SamePrefix(run, shorter, i, keep);
    }
  }

  function Nows(run: seq<Round>): (r: seq<int>)
    ensures |r| == |run| && forall i | 0 <= i < |r| :: r[i] == run[i].now
  {
    seq(|run|, i requires 0 <= i < |run| => run[i].now)
  }

  function MinuteTimes(nows: seq<int>, keep: Retention): (r: seq<Times>)
    ensures |r| == |nows| && forall i | 0 <= i < |r| :: r[i] == Times(MinuteCut(nows[i], keep), MinuteCut(nows[i], keep))
  {
    seq(|nows|, i requires 0 <= i < |nows| => Times(MinuteCut(nows[i], keep), MinuteCut(nows[i], keep)))
  }

  function DayTimes(nows: seq<int>, keep: Retention): (r: seq<Times>)
    ensures |r| == |nows| && forall i | 0 <= i < |r| :: r[i] == Times(nows[i] - 7 * DAY, nows[i] - keep.day * DAY)
  {
    seq(|nows|, i requires 0 <= i < |nows| => Times(nows[i] - 7 * DAY, nows[i] - keep.day * DAY))
  }

  /** The minutes that each cleanup finds. */
  function MinuteStock(run: seq<Round>): (r: seq<Table>)
    ensures |r| == |run| && forall i | 0 <= i < |r| :: r[i] == OfGranularity(run[i].found, Minute)
  {
    seq(|run|, i requires 0 <= i < |run| => OfGranularity(run[i].found, Minute))
  }

  /** The days that each cleanup finds once it has rolled up the minutes. */
  function DayStock(run: seq<Round>): (r: seq<Table>)
    ensures |r| == |run| && forall i | 0 <= i < |r| :: r[i] == OfGranularity(run[i].rolled, Day)
  {
    seq(|run|, i requires 0 <= i < |run| => OfGranularity(run[i].rolled, Day))
  }

  lemma PrefixStocks(run: seq<Round>, keep: Retention)
    requires run != []
    ensures var n := |run| - 1;
            && MinuteStock(run)[..n] == MinuteStock(run[..n]) && DayStock(run)[..n] == DayStock(run[..n])
            && MinuteTimes(Nows(run), keep)[..n] == MinuteTimes(Nows(run[..n]), keep)
            && DayTimes(Nows(run), keep)[..n] == DayTimes(Nows(run[..n]), keep)
  {
  }

  /** The days and weeks rolled up so far, if none was ever deleted. */
  function Days(run: seq<Round>): Table {
    Overlaid(DayQueries(run))
  }

  function Weeks(run: seq<Round>): Table {
    Overlaid(WeekQueries(run))
  }

  function DayQueries(run: seq<Round>): (r: seq<Table>)
    ensures |r| == |run| && forall i | 0 <= i < |r| :: r[i] == run[i].days
  {
    seq(|run|, i requires 0 <= i < |run| => run[i].days)
  }

  function WeekQueries(run: seq<Round>): (r: seq<Table>)
    ensures |r| == |run| && forall i | 0 <= i < |r| :: r[i] == run[i].weeks
  {
    seq(|run|, i requires 0 <= i < |run| => run[i].weeks)
  }

  lemma DaysAreCoarse(run: seq<Round>, keep: Retention)
    requires AllQueries(run, keep)
    ensures Days(run) == Coarse(Minute, Day, MinuteStock(run), MinuteTimes(Nows(run), keep))
  {
    forall i | 0 <= i < |run|
      ensures DayQueries(run)[i] == Aggregate(MinuteStock(run)[i], Minute, Day, None, MinuteTimes(Nows(run), keep)[i].end)
    {
      assert Queries(run[i], keep);
    }
    CoarseIsOverlaid(Minute, Day, MinuteStock(run), MinuteTimes(Nows(run), keep), DayQueries(run));
  }

  lemma WeeksAreCoarse(run: seq<Round>, keep: Retention)
    requires AllQueries(run, keep)
    ensures Weeks(run) == Coarse(Day, Week, DayStock(run), DayTimes(Nows(run), keep))
  {
    forall i | 0 <= i < |run|
      ensures WeekQueries(run)[i] == Aggregate(DayStock(run)[i], Day, Week, None, DayTimes(Nows(run), keep)[i].end)
    {
      assert Queries(run[i], keep);
    }
    CoarseIsOverlaid(Day, Week, DayStock(run), DayTimes(Nows(run), keep), WeekQueries(run));
  }

  // ----- minutes -----

  ghost predicate MinutesHold(run: seq<Round>, keep: Retention) {
    && Feasible(Minute, MinuteStock(run), MinuteTimes(Nows(run), keep))
    && Ever(MinuteStock(run), MinuteTimes(Nows(run), keep)) == OfGranularity(Seen(run), Minute)
  }

  /** `left` is what a cut leaves of the minutes seen. */
  ghost predicate LeftOf(left: Table, seen: Table, cut: int) {
    && (forall k: Key | k.granularity.Minute? && k.start >= cut :: SameAt(left, seen, k))
    && (forall k | k in left && k.granularity.Minute? :: k.start >= cut)
  }

  lemma AddedAfterCutAt(left: Table, seen: Table, batch: seq<Row>, cut: int, k: Key)
    requires LeftOf(left, seen, cut) && k.granularity.Minute?
    requires forall row | row in batch :: row.key.start >= cut
    ensures InStep(IncrementAll(left, batch), IncrementAll(seen, batch), seen, cut, k)
  {
    if k.start >= cut {
      AddedAlike(left, seen, batch, k);
    } else {
      UntouchedRow(seen, batch, k);
      UntouchedRow(left, batch, k);
    }
  }

  /** Adding rows after the cut keeps the two in step. */
  lemma AddedAfterCut(left: Table, seen: Table, batch: seq<Row>, cut: int)
    requires LeftOf(left, seen, cut) && forall row | row in batch :: row.key.start >= cut
    ensures OfGranularity(IncrementAll(seen, batch), Minute) ==
            Below(OfGranularity(seen, Minute), cut) + OfGranularity(IncrementAll(left, batch), Minute)
  {
    forall k: Key | k.granularity.Minute?
      ensures InStep(IncrementAll(left, batch), IncrementAll(seen, batch), seen, cut, k)
    {
      AddedAfterCutAt(left, seen, batch, cut, k);
    }
    MinutesInStep(IncrementAll(left, batch), IncrementAll(seen, batch), seen, cut);
  }

  /** A minute of `after` is one of `left` from the cut on, and one of `before` until then. */
  ghost predicate InStep(left: Table, after: Table, before: Table, cut: int, k: Key) {
    if k.start >= cut then SameAt(after, left, k) else SameAt(after, before, k) && k !in left
  }

  lemma MinutesInStep(left: Table, after: Table, before: Table, cut: int)
    requires forall k: Key | k.granularity.Minute? :: InStep(left, after, before, cut, k)
    ensures OfGranularity(after, Minute) == Below(OfGranularity(before, Minute), cut) + OfGranularity(left, Minute)
  {
    forall k: Key
      ensures k.granularity.Minute? ==> InStep(left, after, before, cut, k)
    {
    }
  }

  /** The next cleanup finds what the last one left, and the new minutes. */
  lemma NextMinutes(left: Table, batch: seq<Row>, before: Table, cut: int)
    requires FineOnly(before, Minute) && OfGranularity(left, Minute) == Trimmed(before, Minute, cut)
    requires forall row | row in batch :: Arrives(row) && row.key.start >= cut
    ensures FineOnly(OfGranularity(IncrementAll(left, batch), Minute), Minute)
    ensures Follows(before, cut, OfGranularity(IncrementAll(left, batch), Minute))
  {
    var after := OfGranularity(IncrementAll(left, batch), Minute);
    forall k | k in after
      ensures Aligned(Minute, k.start) && k.start >= cut
    {
      if k in left {
        assert k in OfGranularity(left, Minute);
      } else {
        RowOrigin(left, batch, k);
      }
    }
    forall k | k in before && k.start >= cut
      ensures k in after
    {
      assert k in OfGranularity(left, Minute);
      RowStays(left, batch, k);
    }
  }

  lemma FirstMinutes(batch: seq<Row>)
    requires forall row | row in batch :: Arrives(row)
    ensures FineOnly(OfGranularity(IncrementAll(map[], batch), Minute), Minute)
  {
    forall k | k in IncrementAll(map[], batch)
      ensures Arrives(Row(k, ONE))
    {
      RowOrigin(map[], batch, k);
    }
  }

  lemma MinutesMirrorFirst(run: seq<Round>, keep: Retention)
    requires Timely(run, keep) && MinuteParts(run, keep) && |run| == 1
    ensures MinutesHold(run, keep)
  {
    assert InTime(run, 0, keep) && MinutesAt(run, 0, keep) && LeftBefore(run, 0) == map[];
    FirstMinutes(run[0].batch);
    var stock, times := MinuteStock(run), MinuteTimes(Nows(run), keep);
    assert stock[..0] == [] && times[..0] == [] && run[..0] == [] && Feasible(Minute, [], []) && Seen([]) == map[];
  }

  lemma {:induction false} MinutesMirror(run: seq<Round>, keep: Retention)
    requires Timely(run, keep) && MinuteParts(run, keep)
    ensures MinutesHold(run, keep)
  {
    if |run| == 1 {
      MinutesMirrorFirst(run, keep);
    } else if |run| > 1 {
      TimelyPrefix(run, keep);
      MinutePartsPrefix(run, keep);
      MinutesMirror(run[..|run| - 1], keep);
      MinutesMirrorNext(run, run[..|run| - 1], keep, MinuteStock(run), MinuteTimes(Nows(run), keep));
    }
  }

  lemma MinutesMirrorNext(run: seq<Round>, shorter: seq<Round>, keep: Retention, stock: seq<Table>, times: seq<Times>)
    requires Timely(run, keep) && MinuteParts(run, keep) && |run| > 1
    requires shorter == run[..|run| - 1] && Timely(shorter, keep) && MinutesHold(shorter, keep)
    requires stock == MinuteStock(run) && times == MinuteTimes(Nows(run), keep)
    ensures MinutesHold(run, keep)
  {
    var n := |run| - 1;
    PrefixStocks(run, keep);
    TimesRise(shorter, keep);
    TimesAreOrdered(Nows(shorter), keep);
    assert InTime(run, n, keep) && MinutesAt(run, n - 1, keep) && MinutesAt(run, n, keep);
    NextMinuteStock(stock, times, Seen(shorter), LeftBefore(run, n), run[n].batch);
  }

  lemma {:induction false} TimesRise(run: seq<Round>, keep: Retention)
    requires Timely(run, keep)
    ensures Rising(Nows(run))
  {
    if run != [] {
      var n := |run| - 1;
      TimelyPrefix(run, keep);
      TimesRise(run[..n], keep);
      assert InTime(run, n, keep);
      forall i | 0 <= i < n
        ensures Nows(run)[i] <= Nows(run)[n]
      {
        assert Nows(run)[i] == Nows(run[..n])[i] && Nows(run)[n - 1] == Nows(run[..n])[n - 1];
      }
      assert forall i | 0 <= i < n :: Nows(run)[i] == Nows(run[..n])[i];
    }
  }

  lemma TimesAreOrdered(nows: seq<int>, keep: Retention)
    requires Rising(nows)
    ensures Ordered(MinuteTimes(nows, keep))
    ensures keep.day >= 7 ==> Ordered(DayTimes(nows, keep))
  {
  }

  lemma WhatACutLeaves(stock: seq<Table>, times: seq<Times>, seen: Table, left: Table)
    requires Feasible(Minute, stock, times) && Ordered(times) && times != []
    requires Ever(stock, times) == OfGranularity(seen, Minute)
    requires OfGranularity(left, Minute) == Trimmed(stock[|times| - 1], Minute, times[|times| - 1].cut)
    ensures LeftOf(left, seen, times[|times| - 1].cut)
  {
    var cut := times[|times| - 1].cut;
    EverIsFine(Minute, stock, times);
    forall k: Key | k.granularity.Minute?
      ensures k.start >= cut ==> SameAt(left, seen, k)
      ensures k in left ==> k.start >= cut
    {
      if k.start >= cut {
        LatestRow(stock, times, k);
      }
      assert SameAt(left, OfGranularity(left, Minute), k) && SameAt(seen, OfGranularity(seen, Minute), k);
    }
  }

  lemma NextMinuteStock(stock: seq<Table>, times: seq<Times>, seen: Table, left: Table, batch: seq<Row>)
    requires |stock| == |times| > 1
    requires var n := |times| - 1;
             && Feasible(Minute, stock[..n], times[..n]) && Ordered(times[..n])
             && Ever(stock[..n], times[..n]) == OfGranularity(seen, Minute)
             && OfGranularity(left, Minute) == Trimmed(stock[n - 1], Minute, times[n - 1].cut)
             && stock[n] == OfGranularity(IncrementAll(left, batch), Minute)
             && forall row | row in batch :: Arrives(row) && row.key.start >= times[n - 1].cut
    ensures Feasible(Minute, stock, times)
    ensures Ever(stock, times) == OfGranularity(IncrementAll(seen, batch), Minute)
  {
    var n := |times| - 1;
    WhatACutLeaves(stock[..n], times[..n], seen, left);
    AddedAfterCut(left, seen, batch, times[n - 1].cut);
    NextMinutes(left, batch, stock[n - 1], times[n - 1].cut);
    FeasibleNext(Minute, stock, times);
  }

  lemma LatestRow(stock: seq<Table>, times: seq<Times>, k: Key)
    requires |stock| == |times| > 0
    requires forall k | k in Ever(stock, times) && k.start >= times[|times| - 1].cut :: k in stock[|times| - 1]
    requires k.start >= times[|times| - 1].cut
    ensures SameAt(Ever(stock, times), stock[|times| - 1], k)
  {
  }

  // ----- days and weeks -----

  lemma TrimmedAgain(rows: Table, more: Table, g: Granularity, days: nat, now: int, later: int)
    requires now <= later
    ensures TrimmedIf(TrimmedIf(rows, g, days, now) + more, g, days, later) == TrimmedIf(rows + more, g, days, later)
  {
  }

  function Prior(rows: seq<Table>, i: nat): Table
    requires i <= |rows|
  {
    if i == 0 then map[] else rows[i - 1]
  }

  predicate WrittenAt(g: Granularity, rows: seq<Table>, more: seq<Table>, days: nat, nows: seq<int>, i: nat)
    requires i < |rows| == |more| == |nows|
  {
    rows[i] == TrimmedIf(Prior(rows, i) + more[i], g, days, nows[i])
  }

  /** A layer of the table: each cleanup writes over what it finds, and deletes what is past its time. */
  predicate IsLayer(g: Granularity, rows: seq<Table>, more: seq<Table>, days: nat, nows: seq<int>) {
    && |rows| == |more| == |nows|
    && forall i | 0 <= i < |rows| :: WrittenAt(g, rows, more, days, nows, i)
  }

  lemma LayerPrefix(g: Granularity, rows: seq<Table>, more: seq<Table>, days: nat, nows: seq<int>)
    requires IsLayer(g, rows, more, days, nows) && nows != []
    ensures var n := |nows| - 1; IsLayer(g, rows[..n], more[..n], days, nows[..n])
  {
    var n := |nows| - 1;
    forall i | 0 <= i < n
      ensures WrittenAt(g, rows[..n], more[..n], days, nows[..n], i)
    {
      assert WrittenAt(g, rows, more, days, nows, i) && Prior(rows[..n], i) == Prior(rows, i);
    }
  }

  /** What is past its time when a cleanup ends can as well be deleted then, all at once. */
  lemma {:induction false} LayerIsTrimmedOverlay(g: Granularity, rows: seq<Table>, more: seq<Table>, days: nat, nows: seq<int>)
    requires IsLayer(g, rows, more, days, nows) && Rising(nows) && nows != []
    ensures rows[|rows| - 1] == TrimmedIf(Overlaid(more), g, days, nows[|nows| - 1])
    decreases |nows|
  {
    var n := |nows| - 1;
    assert WrittenAt(g, rows, more, days, nows, n);
    if n > 0 {
      LayerPrefix(g, rows, more, days, nows);
      LayerIsTrimmedOverlay(g, rows[..n], more[..n], days, nows[..n]);
      TrimmedAgain(Overlaid(more[..n]), more[n], g, days, nows[n - 1], nows[n]);
    } else {
      assert more[..0] == [] && Overlaid([]) == map[] && Prior(rows, 0) == map[];
    }
  }

  function Rows(run: seq<Round>, g: Granularity): (r: seq<Table>)
    ensures |r| == |run| && forall i | 0 <= i < |r| :: r[i] == OfGranularity(run[i].left, g)
  {
    seq(|run|, i requires 0 <= i < |run| => OfGranularity(run[i].left, g))
  }

  lemma PriorRows(run: seq<Round>, g: Granularity, i: nat)
    requires i < |run|
    ensures Prior(Rows(run, g), i) == OfGranularity(LeftBefore(run, i), g)
  {
  }

  lemma DaysMirror(run: seq<Round>, keep: Retention)
    requires Timely(run, keep) && DayParts(run, keep) && run != []
    ensures OfGranularity(run[|run| - 1].left, Day) == TrimmedIf(Days(run), Day, keep.day, run[|run| - 1].now)
  {
    TimesRise(run, keep);
    forall i | 0 <= i < |run|
      ensures WrittenAt(Day, Rows(run, Day), DayQueries(run), keep.day, Nows(run), i)
    {
      assert DaysAt(run, i, keep);
      PriorRows(run, Day, i);
    }
    LayerIsTrimmedOverlay(Day, Rows(run, Day), DayQueries(run), keep.day, Nows(run));
  }

  lemma WeeksMirror(run: seq<Round>, keep: Retention)
    requires Timely(run, keep) && WeekParts(run, keep) && run != []
    ensures OfGranularity(run[|run| - 1].left, Week) == TrimmedIf(Weeks(run), Week, keep.week, run[|run| - 1].now)
  {
    TimesRise(run, keep);
    forall i | 0 <= i < |run|
      ensures WrittenAt(Week, Rows(run, Week), WeekQueries(run), keep.week, Nows(run), i)
    {
      assert WeeksAt(run, i, keep);
      PriorRows(run, Week, i);
    }
    LayerIsTrimmedOverlay(Week, Rows(run, Week), WeekQueries(run), keep.week, Nows(run));
  }

  lemma DaysAreFine(run: seq<Round>, keep: Retention)
    requires AllQueries(run, keep)
    ensures FineOnly(Days(run), Day)
  {
    DaysAreCoarse(run, keep);
    CoarseIsFine(Minute, Day, MinuteStock(run), MinuteTimes(Nows(run), keep));
  }

  /**
   The table over any run. Its minutes are those ever added, after the last cut; its days and
   weeks are all that was ever rolled up, each as last written, but for those past their time.
   */
  lemma TableOfRun(run: seq<Round>, keep: Retention)
    requires IsRun(run, keep) && run != []
    ensures MinutesHold(run, keep)
    ensures var r := run[|run| - 1];
            && OfGranularity(r.left, Day) == TrimmedIf(Days(run), Day, keep.day, r.now)
            && OfGranularity(r.left, Week) == TrimmedIf(Weeks(run), Week, keep.week, r.now)
  {
    PartsOfRun(run, keep);
    MinutesMirror(run, keep);
    DaysMirror(run, keep);
    WeeksMirror(run, keep);
  }
}
