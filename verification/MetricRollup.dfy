/** The metrics table: accumulating upserts, absolute upserts, and rolling fine rows up to days and weeks. */
module MetricRollup {
  import opened Wrappers

  datatype Granularity = Minute | FiveMinutes | Day | Week

  /** What a row is about: service, route, method, status class and error code. */
  datatype Dims = Dims(service: string, route: string, httpMethod: string, statusClass: int, errorCode: string)

  /** The unique key of a row; bucket starts are seconds since the epoch, in UTC. */
  datatype Key = Key(granularity: Granularity, start: int, dims: Dims)

  datatype Vals = Vals(requests: int, errors: int, totalLatency: int, maxLatency: int)

  type Table = map<Key, Vals>

  datatype Row = Row(key: Key, vals: Vals)

  function Combine(a: Vals, b: Vals): Vals {
    Vals(a.requests + b.requests, a.errors + b.errors, a.totalLatency + b.totalLatency,
         if a.maxLatency >= b.maxLatency then a.maxLatency else b.maxLatency)
  }

  /** INSERT ... ON DUPLICATE KEY UPDATE with sums and GREATEST. */
  function Increment(t: Table, row: Row): Table {
    t[row.key := if row.key in t then Combine(t[row.key], row.vals) else row.vals]
  }

  function IncrementAll(t: Table, rows: seq<Row>): Table
    decreases |rows|
  {
    if rows == [] then t else IncrementAll(Increment(t, rows[0]), rows[1..])
  }

  // ----- order and split do not matter -----

  lemma IncrementsCommute(t: Table, a: Row, b: Row)
    ensures Increment(Increment(t, a), b) == Increment(Increment(t, b), a)
  {
  }

  /** Two increments of one key are one increment by the combined values. */
  lemma IncrementTwice(t: Table, k: Key, v: Vals, w: Vals)
    ensures Increment(Increment(t, Row(k, v)), Row(k, w)) == Increment(t, Row(k, Combine(v, w)))
  {
  }

  lemma {:induction false} IncrementFirst(t: Table, rows: seq<Row>, i: nat)
    requires i < |rows|
    ensures IncrementAll(t, rows) == IncrementAll(Increment(t, rows[i]), rows[..i] + rows[i + 1..])
    decreases |rows|
  {
    if i == 0 {
      assert rows[..0] + rows[1..] == rows[1..];
    } else {
      var rest := rows[1..];
      IncrementFirst(Increment(t, rows[0]), rest, i - 1);
      IncrementsCommute(t, rows[0], rows[i]);
      var moved := rows[..i] + rows[i + 1..];
      assert moved[1..] == rest[..i - 1] + rest[i..];
      assert rest[i - 1] == rows[i] && moved[0] == rows[0];
    }
  }

  lemma WithoutOne(rows: seq<Row>, i: nat)
    requires i < |rows|
    ensures multiset(rows[..i] + rows[i + 1..]) == multiset(rows) - multiset{rows[i]}
  {
    assert rows == rows[..i] + [rows[i]] + rows[i + 1..];
  }

  lemma Found(rows: seq<Row>, row: Row) returns (i: nat)
    requires row in multiset(rows)
    ensures i < |rows| && rows[i] == row
  {
    i :| 0 <= i < |rows| && rows[i] == row;
  }

  /** Where the first row is in another order, and that the rest are the same then. */
  lemma FirstElsewhere(rows: seq<Row>, others: seq<Row>) returns (i: nat)
    requires multiset(rows) == multiset(others) && rows != []
    ensures i < |others| && others[i] == rows[0]
    ensures multiset(rows[1..]) == multiset(others[..i] + others[i + 1..])
  {
    i := Found(others, rows[0]);
    WithoutOne(others, i);
    WithoutOne(rows, 0);
    assert rows[..0] + rows[1..] == rows[1..];
  }

  /** Any order of the same rows gives the same table. */
  lemma {:induction false} AnyOrder(t: Table, rows: seq<Row>, others: seq<Row>)
    requires multiset(rows) == multiset(others)
    ensures IncrementAll(t, rows) == IncrementAll(t, others)
    decreases |rows|
  {
    if rows == [] {
      assert |multiset(others)| == 0;
    } else {
      var i := FirstElsewhere(rows, others);
      IncrementFirst(t, others, i);
      AnyOrder(Increment(t, rows[0]), rows[1..], others[..i] + others[i + 1..]);
    }
  }

  /** Any split into batches gives the same table. */
  lemma {:induction false} AnySplit(t: Table, rows: seq<Row>, more: seq<Row>)
    ensures IncrementAll(t, rows + more) == IncrementAll(IncrementAll(t, rows), more)
    decreases |rows|
  {
    if rows == [] {
      assert rows + more == more;
    } else {
      assert (rows + more)[1..] == rows[1..] + more;
      AnySplit(Increment(t, rows[0]), rows[1..], more);
    }
  }

  // ----- grouping -----

  /** GROUP BY: every row moved to its group's key, and combined with the others there. */
  ghost function Regroup(t: Table, group: Key -> Key): Table
    decreases |t|
  {
    if t == map[] then map[]
    else
      var k :| k in t;
      Increment(Regroup(t - {k}, group), Row(group(k), t[k]))
  }

  /** It does not matter in which order the rows are taken. */
  lemma {:induction false} RegroupFrom(t: Table, group: Key -> Key, k: Key)
    requires k in t
    ensures Regroup(t, group) == Increment(Regroup(t - {k}, group), Row(group(k), t[k]))
    decreases |t|
  {
    var first :| first in t && Regroup(t, group) == Increment(Regroup(t - {first}, group), Row(group(first), t[first]));
    if first != k {
      var u := t - {first};
      RegroupFrom(u, group, k);
      RegroupFrom(t - {k}, group, first);
      assert u - {k} == t - {k} - {first};
      IncrementsCommute(Regroup(u - {k}, group), Row(group(k), t[k]), Row(group(first), t[first]));
    }
  }

  lemma RegroupIncrement(t: Table, group: Key -> Key, row: Row)
    ensures Regroup(Increment(t, row), group) == Increment(Regroup(t, group), Row(group(row.key), row.vals))
  {
    var t' := Increment(t, row);
    RegroupFrom(t', group, row.key);
    if row.key in t {
      RegroupFrom(t, group, row.key);
      assert t' - {row.key} == t - {row.key};
      IncrementTwice(Regroup(t - {row.key}, group), group(row.key), t[row.key], row.vals);
    } else {
      assert t' - {row.key} == t;
    }
  }

  /** Grouping twice is grouping once by the composed grouping. */
  lemma {:induction false} RegroupTwice(t: Table, first: Key -> Key, second: Key -> Key, both: Key -> Key)
    requires forall k | k in t :: both(k) == second(first(k))
    ensures Regroup(Regroup(t, first), second) == Regroup(t, both)
    decreases |t|
  {
    if t != map[] {
      var k :| k in t;
      RegroupFrom(t, first, k);
      RegroupFrom(t, both, k);
      RegroupTwice(t - {k}, first, second, both);
      RegroupIncrement(Regroup(t - {k}, first), second, Row(first(k), t[k]));
    }
  }

  lemma {:induction false} RegroupKeys(t: Table, group: Key -> Key, g: Key)
    ensures g in Regroup(t, group) <==> exists k :: k in t && group(k) == g
    decreases |t|
  {
    if t != map[] {
      var k :| k in t;
      RegroupFrom(t, group, k);
      RegroupKeys(t - {k}, group, g);
      if h :| h in t && group(h) == g {
        assert h == k || h in t - {k};
      }
      if g in Regroup(t - {k}, group) {
        var h :| h in t - {k} && group(h) == g;
        assert h in t;
      }
    }
  }

  /** A row alone decides its group when no other row falls into it. */
  lemma {:induction false} RegroupLocal(t: Table, u: Table, group: Key -> Key, g: Key)
    requires forall k :: k in u <==> k in t && group(k) == g
    requires forall k | k in u :: u[k] == t[k]
    ensures g in Regroup(t, group) <==> g in Regroup(u, group)
    ensures g in Regroup(t, group) ==> Regroup(t, group)[g] == Regroup(u, group)[g]
    decreases |t|
  {
    if t != map[] {
      var k :| k in t;
      RegroupFrom(t, group, k);
      if group(k) == g {
        RegroupFrom(u, group, k);
        RegroupLocal(t - {k}, u - {k}, group, g);
      } else {
        RegroupLocal(t - {k}, u, group, g);
      }
    } else {
      assert u == map[];
    }
  }

  // ----- time buckets -----

  const DAY := 86400

  /** The Monday on or before a day; days count from the epoch, and day 0 was a Thursday. */
  function Monday(day: int): int {
    day - (day + 3) % 7
  }

  /** The start of the bucket a time falls into; weeks begin on Monday. */
  function Floor(g: Granularity, time: int): int {
    match g
    case Minute => time / 60 * 60
    case FiveMinutes => time / 300 * 300
    case Day => time / DAY * DAY
    case Week => Monday(time / DAY) * DAY
  }

  predicate Aligned(g: Granularity, time: int) {
    Floor(g, time) == time
  }

  /** The roll-ups that are done: from minutes to days and from days to weeks. */
  predicate RollsUp(from: Granularity, to: Granularity) {
    (from.Minute? && to.Day?) || (from.Minute? && to.Week?) || (from.Day? && to.Week?)
  }

  lemma MondayBounds(day: int)
    ensures Monday(day) <= day < Monday(day) + 7 && (Monday(day) + 3) % 7 == 0 && Monday(Monday(day)) == Monday(day)
  {
  }

  lemma MondayIsMonotone(d: int, e: int)
    requires d <= e
    ensures Monday(d) <= Monday(e)
  {
    assert (d + 3) / 7 <= (e + 3) / 7;
    assert Monday(d) == 7 * ((d + 3) / 7) - 3;
    assert Monday(e) == 7 * ((e + 3) / 7) - 3;
  }

  lemma DayOfStart(day: int)
    ensures day * DAY / DAY == day
  {
  }

  /** A bucket's length in seconds. */
  function Span(g: Granularity): int {
    match g
    case Minute => 60
    case FiveMinutes => 5 * 60
    case Day => 24 * 60 * 60
    case Week => 7 * 24 * 60 * 60
  }

  /** Where buckets start: weeks on Mondays, and 5 January 1970, four days after the epoch, was one. */
  predicate IsStart(g: Granularity, time: int) {
    match g
    case Minute => time % 60 == 0
    case FiveMinutes => time % 300 == 0
    case Day => time % 86400 == 0
    case Week => (time - 4 * 86400) % 604800 == 0
  }

  /** The bucket a time falls into is the one that starts no later and ends after it. */
  lemma FloorIff(g: Granularity, time: int, start: int)
    ensures Floor(g, time) == start <==> IsStart(g, start) && start <= time < start + Span(g)
  {
    match g
    case Minute => MinuteIff(time, start);
    case FiveMinutes => FiveMinutesIff(time, start);
    case Day => DayIff(time, start);
    case Week => WeekIff(time, start);
  }

  lemma MinuteIff(time: int, start: int)
    ensures time / 60 * 60 == start <==> start % 60 == 0 && start <= time < start + 60
  {
  }

  lemma FiveMinutesIff(time: int, start: int)
    ensures time / 300 * 300 == start <==> start % 300 == 0 && start <= time < start + 300
  {
  }

  lemma DayIff(time: int, start: int)
    ensures time / 86400 * 86400 == start <==> start % 86400 == 0 && start <= time < start + 86400
  {
  }

  lemma WeekIff(time: int, start: int)
    ensures Monday(time / 86400) * 86400 == start <==>
            (start - 4 * 86400) % 604800 == 0 && start <= time < start + 604800
  {
    var day := time / 86400;
    MondayIs(day);
    MondayIsStart((day + 3) / 7, time);
    if (start - 4 * 86400) % 604800 == 0 && start <= time < start + 604800 {
      SameWeek((day + 3) / 7, (start - 4 * 86400) / 604800 + 1, time);
    }
  }

  lemma MondayIs(day: int)
    ensures Monday(day) == 7 * ((day + 3) / 7) - 3 && Monday(day) <= day < Monday(day) + 7
  {
  }

  lemma MondayIsStart(week: int, time: int)
    requires 7 * week - 3 <= time / 86400 < 7 * week + 4
    ensures ((7 * week - 3) * 86400 - 4 * 86400) % 604800 == 0
    ensures (7 * week - 3) * 86400 <= time < (7 * week - 3) * 86400 + 604800
  {
    assert (7 * week - 3) * 86400 - 4 * 86400 == (week - 1) * 604800;
  }

  lemma SameWeek(week: int, other: int, time: int)
    requires (7 * week - 3) * 86400 <= time < (7 * week + 4) * 86400
    requires (7 * other - 3) * 86400 <= time < (7 * other + 4) * 86400
    ensures week == other
  {
  }

  lemma FloorBounds(g: Granularity, time: int)
    ensures Floor(g, time) <= time < Floor(g, time) + Span(g) && Aligned(g, Floor(g, time))
    ensures IsStart(g, Floor(g, time))
  {
    FloorIff(g, time, Floor(g, time));
    FloorIff(g, Floor(g, time), Floor(g, time));
  }

  lemma FloorIsMonotone(g: Granularity, a: int, b: int)
    requires a <= b
    ensures Floor(g, a) <= Floor(g, b)
  {
    match g
    case Week =>
      assert a / DAY <= b / DAY;
      MondayIsMonotone(a / DAY, b / DAY);
    case Day => assert a / DAY <= b / DAY;
    case Minute => assert a / 60 <= b / 60;
    case FiveMinutes => assert a / 300 <= b / 300;
  }

  /** A coarser bucket is the same for a time and for the finer bucket it is in. */
  lemma FloorTwice(from: Granularity, to: Granularity, time: int)
    requires RollsUp(from, to)
    ensures Floor(to, Floor(from, time)) == Floor(to, time)
    ensures Aligned(from, Floor(to, time))
  {
    var day := time / DAY;
    if from.Minute? {
      DayOfMinute(time);
      DaysAreMinutes(day);
      DaysAreMinutes(Monday(day));
    } else {
      DayOfStart(day);
      DayOfStart(Monday(day));
    }
  }

  lemma DayOfMinute(time: int)
    ensures time / 60 * 60 / DAY == time / DAY
  {
  }

  lemma DaysAreMinutes(day: int)
    ensures day * DAY / 60 * 60 == day * DAY
  {
    assert day * DAY == (day * 1440) * 60;
  }

  // ----- aggregation -----

  function Bucket(to: Granularity): Key -> Key {
    (k: Key) => Key(to, Floor(to, k.start), k.dims)
  }

  /** WHERE granularity = from AND bucket_start < end, and >= start when there is one. */
  predicate Selects(from: Granularity, start: Option<int>, end: int, k: Key) {
    k.granularity == from && k.start < end && (start.Some? ==> k.start >= start.value)
  }

  function Select(t: Table, from: Granularity, start: Option<int>, end: int): Table {
    map k | k in t && Selects(from, start, end, k) :: t[k]
  }

  ghost function Aggregate(t: Table, from: Granularity, to: Granularity, start: Option<int>, end: int): Table {
    Regroup(Select(t, from, start, end), Bucket(to))
  }

  /** Rolling minutes up to days and the days up to weeks, over the same range. */
  lemma RollUpInSteps(t: Table, start: Option<int>, end: int)
    requires start.Some? ==> Aligned(Day, start.value)
    ensures Aggregate(Aggregate(t, Minute, Day, start, end), Day, Week, start, end) == Aggregate(t, Minute, Week, start, end)
  {
    var fine := Select(t, Minute, start, end);
    var days := Regroup(fine, Bucket(Day));
    forall k | k in days
      ensures Selects(Day, start, end, k)
    {
      RegroupKeys(fine, Bucket(Day), k);
      var f :| f in fine && Bucket(Day)(f) == k;
      FloorBounds(Day, f.start);
      if start.Some? {
        FloorIsMonotone(Day, start.value, f.start);
      }
    }
    assert Select(days, Day, start, end) == days;
    forall k | k in fine
      ensures Bucket(Week)(k) == Bucket(Week)(Bucket(Day)(k))
    {
      FloorTwice(Day, Week, k.start);
    }
    RegroupTwice(fine, Bucket(Day), Bucket(Week), Bucket(Week));
  }

  ghost predicate StepsAgree(start: Option<int>, end: int) {
    forall t: Table ::
      Aggregate(Aggregate(t, Minute, Day, start, end), Day, Week, start, end) == Aggregate(t, Minute, Week, start, end)
  }

  lemma MisalignedStartLosesRows(start: int, end: int) returns (t: Table)
    requires start < end && !Aligned(Day, start)
    ensures Aggregate(Aggregate(t, Minute, Day, Some(start), end), Day, Week, Some(start), end) !=
            Aggregate(t, Minute, Week, Some(start), end)
  {
    var k := Key(Minute, start, Dims("", "", "", 2, ""));
    t := map[k := Vals(1, 0, 0, 0)];
    var fine := Select(t, Minute, Some(start), end);
    assert k in fine;
    var week := Bucket(Week)(k);
    RegroupKeys(fine, Bucket(Week), week);
    var days := Regroup(fine, Bucket(Day));
    var again := Select(days, Day, Some(start), end);
    RegroupKeys(again, Bucket(Week), week);
    if d :| d in again {
      RegroupKeys(fine, Bucket(Day), d);
      FloorBounds(Day, start);
    }
  }

  /** The two ways agree on every table exactly when the range starts on a day boundary, is open, or is empty. */
  lemma StepsAgreeIff(start: Option<int>, end: int)
    ensures StepsAgree(start, end) <==> start.None? || Aligned(Day, start.value) || start.value >= end
  {
    if start.None? || Aligned(Day, start.value) {
      forall t: Table
        ensures Aggregate(Aggregate(t, Minute, Day, start, end), Day, Week, start, end) == Aggregate(t, Minute, Week, start, end)
      {
        RollUpInSteps(t, start, end);
      }
    } else if start.value >= end {
      forall t: Table
        ensures Aggregate(Aggregate(t, Minute, Day, start, end), Day, Week, start, end) == Aggregate(t, Minute, Week, start, end)
      {
        assert Select(t, Minute, start, end) == map[];
        assert Select(map[], Day, start, end) == map[];
      }
    } else {
      var t := MisalignedStartLosesRows(start.value, end);
    }
  }

  // ----- conservation -----

  // ----- roll-up and cleanup of the table itself -----

  /** INSERT ... ON DUPLICATE KEY UPDATE that overwrites. */
  function Overwrite(t: Table, row: Row): Table {
    t[row.key := row.vals]
  }

  function OverwriteAll(t: Table, rows: seq<Row>): Table
    decreases |rows|
  {
    if rows == [] then t else OverwriteAll(Overwrite(t, rows[0]), rows[1..])
  }

  predicate Mentions(rows: seq<Row>, k: Key) {
    exists i :: 0 <= i < |rows| && rows[i].key == k
  }

  /** The rows are the entries of the table. */
  ghost predicate Lists(rows: seq<Row>, t: Table) {
    && (forall i | 0 <= i < |rows| :: rows[i].key in t && t[rows[i].key] == rows[i].vals)
    && (forall k | k in t :: Mentions(rows, k))
  }

  lemma MentionsRest(rows: seq<Row>, k: Key)
    requires rows != []
    ensures Mentions(rows, k) <==> rows[0].key == k || Mentions(rows[1..], k)
  {
    if Mentions(rows, k) {
      var i :| 0 <= i < |rows| && rows[i].key == k;
      assert i > 0 ==> rows[1..][i - 1].key == k;
    }
    if Mentions(rows[1..], k) {
      var i :| 0 <= i < |rows[1..]| && rows[1..][i].key == k;
      assert rows[i + 1].key == k;
    }
  }

  lemma {:induction false} OverwriteAllAt(t: Table, rows: seq<Row>, agg: Table, k: Key)
    requires forall i | 0 <= i < |rows| :: rows[i].key in agg && agg[rows[i].key] == rows[i].vals
    ensures k in OverwriteAll(t, rows) <==> k in t || Mentions(rows, k)
    ensures k in OverwriteAll(t, rows) ==>
              if Mentions(rows, k) then k in agg && OverwriteAll(t, rows)[k] == agg[k] else OverwriteAll(t, rows)[k] == t[k]
    decreases |rows|
  {
    if rows != [] {
      OverwriteAllAt(Overwrite(t, rows[0]), rows[1..], agg, k);
      MentionsRest(rows, k);
    }
  }

  /** Writing the rows of an aggregate puts the aggregate over the table. */
  lemma OverwriteListing(t: Table, rows: seq<Row>, agg: Table)
    requires Lists(rows, agg)
    ensures OverwriteAll(t, rows) == t + agg
  {
    forall k: Key
      ensures k in OverwriteAll(t, rows) <==> k in t + agg
      ensures k in t + agg ==> OverwriteAll(t, rows)[k] == (t + agg)[k]
    {
      OverwriteAllAt(t, rows, agg, k);
    }
  }

  lemma {:induction false} OverwriteSplit(t: Table, rows: seq<Row>, more: seq<Row>)
    ensures OverwriteAll(t, rows + more) == OverwriteAll(OverwriteAll(t, rows), more)
    decreases |rows|
  {
    if rows == [] {
      assert rows + more == more;
    } else {
      assert (rows + more)[1..] == rows[1..] + more;
      OverwriteSplit(Overwrite(t, rows[0]), rows[1..], more);
    }
  }

  ghost function Rolled(t: Table, from: Granularity, to: Granularity, start: Option<int>, end: int): Table {
    t + Aggregate(t, from, to, start, end)
  }

  function Expired(t: Table, g: Granularity, before: int): set<Key> {
    set k | k in t && k.granularity == g && k.start < before
  }

  function Trimmed(t: Table, g: Granularity, before: int): Table {
    t - Expired(t, g, before)
  }

  lemma AggregateIsOf(t: Table, from: Granularity, to: Granularity, start: Option<int>, end: int, k: Key)
    requires k in Aggregate(t, from, to, start, end)
    ensures k.granularity == to
    ensures exists f :: f in t && Selects(from, start, end, f) && k == Bucket(to)(f)
  {
    RegroupKeys(Select(t, from, start, end), Bucket(to), k);
  }

  /** The aggregate depends on the selected rows alone. */
  lemma SameSelection(t: Table, u: Table, from: Granularity, to: Granularity, start: Option<int>, end: int)
    requires Select(t, from, start, end) == Select(u, from, start, end)
    ensures Aggregate(t, from, to, start, end) == Aggregate(u, from, to, start, end)
  {
  }

  /** Rolling up again changes nothing. */
  lemma RollUpTwice(t: Table, from: Granularity, to: Granularity, start: Option<int>, end: int)
    requires from != to
    ensures Rolled(Rolled(t, from, to, start, end), from, to, start, end) == Rolled(t, from, to, start, end)
  {
    var agg := Aggregate(t, from, to, start, end);
    forall k | k in agg
      ensures k.granularity == to
    {
      AggregateIsOf(t, from, to, start, end, k);
    }
    SelectsNoMore(t, agg, from, to, start, end);
    SameSelection(t, t + agg, from, to, start, end);
    assert t + agg + agg == t + agg;
  }

  lemma SelectsNoMore(t: Table, agg: Table, from: Granularity, to: Granularity, start: Option<int>, end: int)
    requires from != to && forall k | k in agg :: k.granularity == to
    ensures Select(t + agg, from, start, end) == Select(t, from, start, end)
  {
  }
}
