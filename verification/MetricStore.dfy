/** The repository's loops over the metrics table, and the backend's periodic roll-up and cleanup. */
module MetricStore {
  import opened Wrappers
  import opened MetricRollup
  import opened MetricTotals

  /** Rows that are not nil. */
  function Present(rows: seq<Option<Row>>): seq<Row> {
    if rows == [] then []
    else if rows[|rows| - 1].Some? then Present(rows[..|rows| - 1]) + [rows[|rows| - 1].value]
    else Present(rows[..|rows| - 1])
  }

  function Executed(rows: seq<Option<Row>>, accepted: nat): seq<Row> {
    if |Present(rows)| <= accepted then Present(rows) else Present(rows)[..accepted]
  }

  lemma {:induction false} PresentOfPrefix(rows: seq<Option<Row>>, n: nat)
    requires n <= |rows|
    ensures Present(rows[..n]) <= Present(rows)
    decreases |rows|
  {
    if n == |rows| {
      assert rows[..n] == rows;
    } else {
      assert rows[..|rows| - 1][..n] == rows[..n];
      PresentOfPrefix(rows[..|rows| - 1], n);
    }
  }

  /** How long rows are kept: in days, where zero means for ever except for the fine ones. */
  datatype Retention = Retention(fine: nat, day: nat, week: nat)

  /** Days to weeks up to a week ago. */
  ghost function WeeksRolled(t: Table, now: int): Table {
    Rolled(t, Day, Week, None, now - 7 * DAY)
  }

  /** Minutes to days before the fine cut. */
  ghost function DaysRolled(t: Table, now: int, keep: Retention): Table {
    Rolled(t, Minute, Day, None, now - keep.fine * DAY)
  }

  /** The first, and then the second. */
  ghost function RolledUp(t: Table, now: int, keep: Retention): Table {
    WeeksRolled(DaysRolled(t, now, keep), now)
  }

  function TrimmedIf(t: Table, g: Granularity, days: nat, now: int): Table {
    if days > 0 then Trimmed(t, g, now - days * DAY) else t
  }

  function FineTrimmed(t: Table, now: int, keep: Retention): Table {
    Trimmed(Trimmed(t, Minute, now - keep.fine * DAY), FiveMinutes, now - keep.fine * DAY)
  }

  function CoarseTrimmed(t: Table, now: int, keep: Retention): Table {
    TrimmedIf(TrimmedIf(t, Day, keep.day, now), Week, keep.week, now)
  }

  predicate IsPast(k: Key, now: int, keep: Retention) {
    match k.granularity
    case Day => keep.day > 0 && k.start < now - keep.day * DAY
    case Week => keep.week > 0 && k.start < now - keep.week * DAY
    case _ => k.start < now - keep.fine * DAY
  }

  /** The rows that are not past their time. */
  function Retained(t: Table, now: int, keep: Retention): Table {
    map k | k in t && !IsPast(k, now, keep) :: t[k]
  }

  /** That is what the four deletions leave. */
  lemma RetainedIsTrimmed(t: Table, now: int, keep: Retention)
    ensures CoarseTrimmed(FineTrimmed(t, now, keep), now, keep) == Retained(t, now, keep)
  {
    forall k
      ensures k in CoarseTrimmed(FineTrimmed(t, now, keep), now, keep) <==> k in Retained(t, now, keep)
    {
    }
  }

  ghost function CleanedUp(t: Table, now: int, keep: Retention): Table {
    Retained(RolledUp(t, now, keep), now, keep)
  }

  const DELETE_BATCH_SIZE: nat := 1000

  class Store {
    var table: Table

    constructor ()
      ensures table == map[]
    {
      table := map[];
    }

    /** The database executes `accepted` statements and fails the next; what was executed stays. */
    method IncrementBatch(rows: seq<Option<Row>>, accepted: nat) returns (ok: bool)
      modifies this
      ensures ok <==> |Present(rows)| <= accepted
      ensures table == IncrementAll(old(table), Executed(rows, accepted))
      ensures forall k :: TotalAt(old(table), Executed(rows, accepted), table, k)
    {
      var done := 0;
      for i := 0 to |rows|
        invariant done == |Present(rows[..i])| <= accepted
        invariant table == IncrementAll(old(table), Present(rows[..i]))
      {
        assert rows[..i + 1][..i] == rows[..i];
        PresentOfPrefix(rows, i + 1);
        if rows[i].None? {
          continue;
        }
        if done == accepted {
          PresentOfPrefix(rows, i);
          assert Executed(rows, accepted) == Present(rows[..i]);
          TotalsEverywhere(old(table), Executed(rows, accepted));
          return false;
        }
        AnySplit(old(table), Present(rows[..i]), [rows[i].value]);
        assert IncrementAll(table, [rows[i].value]) == Increment(table, rows[i].value) by {
          assert [rows[i].value][1..] == [];
        }
        table := Increment(table, rows[i].value);
        done := done + 1;
      }
      assert rows[..|rows|] == rows;
      TotalsEverywhere(old(table), Executed(rows, accepted));
      return true;
    }

    method UpsertAbsoluteBatch(rows: seq<Option<Row>>, accepted: nat) returns (ok: bool)
      modifies this
      ensures ok <==> |Present(rows)| <= accepted
      ensures table == OverwriteAll(old(table), Executed(rows, accepted))
    {
      var done := 0;
      for i := 0 to |rows|
        invariant done == |Present(rows[..i])| <= accepted
        invariant table == OverwriteAll(old(table), Present(rows[..i]))
      {
        assert rows[..i + 1][..i] == rows[..i];
        PresentOfPrefix(rows, i + 1);
        if rows[i].None? {
          continue;
        }
        if done == accepted {
          PresentOfPrefix(rows, i);
          assert Executed(rows, accepted) == Present(rows[..i]);
          return false;
        }
        OverwriteSplit(old(table), Present(rows[..i]), [rows[i].value]);
        assert OverwriteAll(table, [rows[i].value]) == Overwrite(table, rows[i].value) by {
          assert [rows[i].value][1..] == [];
        }
        table := Overwrite(table, rows[i].value);
        done := done + 1;
      }
      assert rows[..|rows|] == rows;
      return true;
    }

    /**
     Deletes in batches, earliest first, until a query for expired rows comes back empty. The
     database executes `accepted` queries and deletions and fails the next.
     */
    method DeleteBeforeByGranularity(g: Granularity, before: int, accepted: nat) returns (ok: bool)
      modifies this
      ensures ok <==> Statements(|Expired(old(table), g, before)|) <= accepted
      ensures ok ==> table == Trimmed(old(table), g, before)
      ensures IsPartlyTrimmed(old(table), table, g, before)
    {
      var done := 0;
      while true
        invariant IsPartlyTrimmed(old(table), table, g, before)
        invariant done <= accepted
        invariant Statements(|Expired(old(table), g, before)|) == done + Statements(|Expired(table, g, before)|)
        decreases |table|
      {
        var outcome := DeleteBatch(g, before, accepted - done, old(table));
        if !outcome.Deleted? {
          return outcome.NoneLeft?;
        }
        done := done + 2;
      }
    }

    /** One query, and the deletion of what it finds. */
    method DeleteBatch(g: Granularity, before: int, accepted: nat, ghost start: Table) returns (outcome: Deletion)
      requires IsPartlyTrimmed(start, table, g, before)
      modifies this
      ensures IsPartlyTrimmed(start, table, g, before)
      ensures !outcome.Deleted? ==> table == old(table)
      ensures outcome.NoneLeft? ==> table == Trimmed(start, g, before) && Statements(|Expired(table, g, before)|) == 1 <= accepted
      ensures outcome.Failed? ==> accepted < Statements(|Expired(table, g, before)|)
      ensures outcome.Deleted? ==>
                && |table| < |old(table)| && accepted >= 2
                && Statements(|Expired(old(table), g, before)|) == 2 + Statements(|Expired(table, g, before)|)
    {
      if accepted == 0 {
        return Failed;
      }
      var expired := Expired(table, g, before);
      var ids := FirstBatch(expired, DELETE_BATCH_SIZE);
      if ids == {} {
        NothingExpired(start, table, g, before);
        return NoneLeft;
      }
      if accepted == 1 {
        return Failed;
      }
      DeleteIds(ids, g, before, start, expired);
      return Deleted;
    }

    method DeleteIds(ids: set<Key>, ghost g: Granularity, ghost before: int, ghost start: Table, ghost expired: set<Key>)
      requires IsPartlyTrimmed(start, table, g, before) && expired == Expired(table, g, before)
      requires ids <= expired && ids != {} && forall k, l | k in ids && l in expired - ids :: k.start <= l.start
      requires |ids| == if |expired| <= DELETE_BATCH_SIZE then |expired| else DELETE_BATCH_SIZE
      modifies this
      ensures IsPartlyTrimmed(start, table, g, before) && |table| < |old(table)|
      ensures Statements(|expired|) == 2 + Statements(|Expired(table, g, before)|)
    {
      ghost var left := Trim(start, table, g, before, ids, expired);
      table := table - ids;
      assert table == left;
    }

    /** `rows` is what the aggregate query returns, unless it fails; `accepted` upserts are executed, and the next fails. */
    method Rollup(from: Granularity, to: Granularity, start: Option<int>, end: int, rows: Option<seq<Row>>, batchSize: nat, accepted: nat)
      returns (ok: bool)
      requires batchSize > 0 && (rows.Some? ==> Lists(rows.value, Aggregate(table, from, to, start, end)))
      modifies this
      ensures ok <==> rows.Some? && |rows.value| <= accepted
      ensures ok ==> table == Rolled(old(table), from, to, start, end)
      ensures rows.Some? ==> table == OverwriteAll(old(table), Cut(rows.value, accepted))
      ensures rows.None? ==> table == old(table)
    {
      if rows.None? {
        return false;
      }
      ok := UpsertInBatches(rows.value, batchSize, accepted);
      assert ok ==> Cut(rows.value, accepted) == rows.value;
      OverwriteListing(old(table), rows.value, Aggregate(old(table), from, to, start, end));
    }

    method UpsertInBatches(rows: seq<Row>, batchSize: nat, accepted: nat) returns (ok: bool)
      requires batchSize > 0
      modifies this
      ensures ok <==> |rows| <= accepted
      ensures table == OverwriteAll(old(table), Cut(rows, accepted))
    {
      var i := 0;
      while i < |rows|
        invariant 0 <= i <= |rows| && i <= accepted
        invariant table == OverwriteAll(old(table), rows[..i])
      {
        var batchEnd := if i + batchSize > |rows| then |rows| else i + batchSize;
        ok := UpsertSlice(rows, i, batchEnd, accepted, old(table));
        if !ok {
          return;
        }
        i := batchEnd;
      }
      assert rows[..|rows|] == rows;
      ok := true;
    }

    method UpsertSlice(rows: seq<Row>, i: nat, batchEnd: nat, accepted: nat, ghost start: Table) returns (ok: bool)
      requires i <= batchEnd <= |rows| && i <= accepted && table == OverwriteAll(start, rows[..i])
      modifies this
      ensures ok <==> batchEnd <= accepted
      ensures table == OverwriteAll(start, if ok then rows[..batchEnd] else Cut(rows, accepted))
    {
      OverwriteSlice(start, rows, i, batchEnd, accepted);
      ok := UpsertAbsoluteBatch(Wrapped(rows[i..batchEnd]), accepted - i);
    }

    method DeleteIf(g: Granularity, days: nat, now: int, accepted: nat) returns (ok: bool)
      modifies this
      ensures ok ==> table == TrimmedIf(old(table), g, days, now)
      ensures if days > 0 then IsPartlyTrimmed(old(table), table, g, now - days * DAY) else ok
    {
      ok := true;
      if days > 0 {
        ok := DeleteBeforeByGranularity(g, now - days * DAY, accepted);
      }
    }

    method DeleteFine(now: int, keep: Retention, faults: Faults) returns (ok: bool)
      modifies this
      ensures ok ==> table == FineTrimmed(old(table), now, keep)
      ensures LeavesOut(old(table), table, now, keep)
    {
      ok := DeleteBeforeByGranularity(Minute, now - keep.fine * DAY, faults.minutes);
      if ok {
        ok := DeleteBeforeByGranularity(FiveMinutes, now - keep.fine * DAY, faults.fiveMinutes);
      }
    }

    method DeleteCoarse(now: int, keep: Retention, faults: Faults) returns (ok: bool)
      modifies this
      ensures ok ==> table == CoarseTrimmed(old(table), now, keep)
      ensures LeavesOut(old(table), table, now, keep)
    {
      ok := DeleteIf(Day, keep.day, now, faults.days);
      if ok {
        ok := DeleteIf(Week, keep.week, now, faults.weeks);
      }
    }

    method DeleteExpired(now: int, keep: Retention, faults: Faults) returns (ok: bool)
      modifies this
      ensures ok ==> table == Retained(old(table), now, keep)
      ensures LeavesOut(old(table), table, now, keep)
    {
      ok := DeleteFine(now, keep, faults);
      if ok {
        ghost var left := table;
        ok := DeleteCoarse(now, keep, faults);
        LeavesOutTwice(old(table), left, table, now, keep);
        RetainedIsTrimmed(old(table), now, keep);
      }
    }

    /** A roll-up removes no row. */
    method RollupMore(from: Granularity, to: Granularity, end: int, rows: Option<seq<Row>>, batchSize: nat, accepted: nat) returns (ok: bool)
      requires batchSize > 0 && (rows.Some? ==> Lists(rows.value, Aggregate(table, from, to, None, end)))
      modifies this
      ensures ok ==> table == Rolled(old(table), from, to, None, end)
      ensures old(table).Keys <= table.Keys
    {
      ok := Rollup(from, to, None, end, rows, batchSize, accepted);
      if rows.Some? {
        OverwriteKeeps(old(table), Cut(rows.value, accepted));
      }
    }

    /** The first roll-up of a cleanup, and the second. */
    method RollupDays(end: int, rows: Option<seq<Row>>, batchSize: nat, accepted: nat, ghost rolled: Table) returns (ok: bool)
      requires batchSize > 0 && rolled == Rolled(table, Minute, Day, None, end)
      requires rows.Some? ==> Lists(rows.value, Aggregate(table, Minute, Day, None, end))
      modifies this
      ensures ok ==> table == rolled
      ensures old(table).Keys <= table.Keys
    {
      ok := RollupMore(Minute, Day, end, rows, batchSize, accepted);
    }

    method RollupWeeks(end: int, rows: Option<seq<Row>>, batchSize: nat, accepted: nat, ghost rolled: Table) returns (ok: bool)
      requires batchSize > 0 && rolled == Rolled(table, Day, Week, None, end)
      requires rows.Some? ==> Lists(rows.value, Aggregate(table, Day, Week, None, end))
      modifies this
      ensures ok ==> table == rolled
      ensures old(table).Keys <= table.Keys
    {
      ok := RollupMore(Day, Week, end, rows, batchSize, accepted);
    }

    method RollupTwice(minuteEnd: int, dayEnd: int, ghost first: Table, ghost second: Table,
                       dayRows: Option<seq<Row>>, weekRows: Option<seq<Row>>, batchSize: nat, faults: Faults)
      returns (ok: bool)
      requires batchSize > 0
      requires first == Rolled(table, Minute, Day, None, minuteEnd) && second == Rolled(first, Day, Week, None, dayEnd)
      requires dayRows.Some? ==> Lists(dayRows.value, Aggregate(table, Minute, Day, None, minuteEnd))
      requires weekRows.Some? ==> Lists(weekRows.value, Aggregate(first, Day, Week, None, dayEnd))
      modifies this
      ensures ok ==> table == second
      ensures old(table).Keys <= table.Keys
    {
      ok := RollupDays(minuteEnd, dayRows, batchSize, faults.dayUpserts, first);
      if ok {
        ok := RollupWeeks(dayEnd, weekRows, batchSize, faults.weekUpserts, second);
      }
    }

    method RollupBoth(now: int, keep: Retention, dayRows: Option<seq<Row>>, weekRows: Option<seq<Row>>, batchSize: nat, faults: Faults)
      returns (ok: bool)
      requires batchSize > 0
      requires dayRows.Some? ==> Lists(dayRows.value, Aggregate(table, Minute, Day, None, now - keep.fine * DAY))
      requires weekRows.Some? ==>
                 Lists(weekRows.value, Aggregate(DaysRolled(table, now, keep), Day, Week, None, now - 7 * DAY))
      modifies this
      ensures ok ==> table == RolledUp(old(table), now, keep)
      ensures old(table).Keys <= table.Keys
    {
      ghost var first := DaysRolled(table, now, keep);
      ok := RollupTwice(now - keep.fine * DAY, now - 7 * DAY, first, WeeksRolled(first, now), dayRows, weekRows, batchSize, faults);
    }

    /**
     `dayRows` and `weekRows` are what the two aggregate queries return. Whatever fails, no row
     is deleted before everything has been rolled up, and none that is not past its time.
     */
    method RollupAndCleanup(now: int, keep: Retention, dayRows: Option<seq<Row>>, weekRows: Option<seq<Row>>, batchSize: nat, faults: Faults)
      returns (ok: bool)
      requires batchSize > 0
      requires dayRows.Some? ==> Lists(dayRows.value, Aggregate(table, Minute, Day, None, now - keep.fine * DAY))
      requires weekRows.Some? ==>
                 Lists(weekRows.value, Aggregate(DaysRolled(table, now, keep), Day, Week, None, now - 7 * DAY))
      modifies this
      ensures ok ==> table == CleanedUp(old(table), now, keep)
      ensures old(table).Keys <= table.Keys || LeavesOut(RolledUp(old(table), now, keep), table, now, keep)
    {
      ok := RollupBoth(now, keep, dayRows, weekRows, batchSize, faults);
      if ok {
        ok := DeleteExpired(now, keep, faults);
      }
    }
  }

  datatype Deletion = NoneLeft | Deleted | Failed

  /** How many statements each part of a cleanup gets through. */
  datatype Faults = Faults(dayUpserts: nat, weekUpserts: nat, minutes: nat, fiveMinutes: nat, days: nat, weeks: nat)

  function Cut(rows: seq<Row>, accepted: nat): seq<Row> {
    if |rows| <= accepted then rows else rows[..accepted]
  }

  /** A query for every batch, a deletion for each that is not empty. */
  function Statements(expired: nat): (n: nat)
    ensures n > 0 && (expired > 0 ==> n > 2)
  {
    if expired == 0 then 1
    else 2 + Statements(if expired <= DELETE_BATCH_SIZE then 0 else expired - DELETE_BATCH_SIZE)
  }

  /** In batches of a thousand: two statements for each, and the query that comes back empty. */
  lemma {:induction false} StatementsIs(expired: nat)
    ensures Statements(expired) == 1 + 2 * ((expired + 999) / 1000)
  {
    if expired > DELETE_BATCH_SIZE {
      StatementsIs(expired - DELETE_BATCH_SIZE);
    }
  }

  lemma StatementsAfter(expired: nat, deleted: nat, left: nat)
    requires deleted > 0 && deleted == if expired <= DELETE_BATCH_SIZE then expired else DELETE_BATCH_SIZE
    requires left == expired - deleted
    ensures Statements(expired) == 2 + Statements(left)
  {
  }

  /** `u` is `t` without some rows, all of them past their time. */
  ghost predicate LeavesOut(t: Table, u: Table, now: int, keep: Retention) {
    && (forall k | k in u :: k in t && u[k] == t[k])
    && (forall k | k in t && k !in u :: IsPast(k, now, keep))
  }

  lemma LeavesOutTwice(t: Table, u: Table, v: Table, now: int, keep: Retention)
    requires LeavesOut(t, u, now, keep) && LeavesOut(u, v, now, keep)
    ensures LeavesOut(t, v, now, keep)
  {
  }

  /** `u` is `t` without some of the expired rows, the earliest of them. */
  ghost predicate IsPartlyTrimmed(t: Table, u: Table, g: Granularity, before: int) {
    && (forall k | k in u :: k in t && u[k] == t[k])
    && (forall k | k in t && k !in u :: k in Expired(t, g, before))
    && (forall k, l | k in t && k !in u && l in Expired(u, g, before) :: k.start <= l.start)
  }

  lemma NothingExpired(t: Table, u: Table, g: Granularity, before: int)
    requires IsPartlyTrimmed(t, u, g, before) && Expired(u, g, before) == {}
    ensures u == Trimmed(t, g, before)
  {
    forall k
      ensures k in u <==> k in Trimmed(t, g, before)
    {
      assert k in u ==> k !in Expired(u, g, before);
    }
  }

  /** Deleting the earliest of the expired rows leaves the rest of them, and there are fewer rows then. */
  lemma TrimInTwo(t: Table, u: Table, g: Granularity, before: int, ids: set<Key>, expired: set<Key>, v: Table)
    requires IsPartlyTrimmed(t, u, g, before) && expired == Expired(u, g, before) && v == u - ids
    requires ids <= expired && ids != {} && forall k, l | k in ids && l in expired - ids :: k.start <= l.start
    ensures IsPartlyTrimmed(t, v, g, before)
    ensures |v| < |u| && |Expired(v, g, before)| == |expired| - |ids|
  {
    assert Expired(v, g, before) == expired - ids;
    var k :| k in ids;
    FewerKeys(u, ids, k);
  }

  lemma Trim(t: Table, u: Table, g: Granularity, before: int, ids: set<Key>, expired: set<Key>) returns (left: Table)
    requires IsPartlyTrimmed(t, u, g, before) && expired == Expired(u, g, before)
    requires ids <= expired && ids != {} && forall k, l | k in ids && l in expired - ids :: k.start <= l.start
    requires |ids| == if |expired| <= DELETE_BATCH_SIZE then |expired| else DELETE_BATCH_SIZE
    ensures left == u - ids && IsPartlyTrimmed(t, left, g, before) && |left| < |u|
    ensures Statements(|expired|) == 2 + Statements(|Expired(left, g, before)|)
  {
    left := u - ids;
    TrimInTwo(t, u, g, before, ids, expired, left);
    StatementsAfter(|expired|, |ids|, |Expired(left, g, before)|);
  }

  lemma {:induction false} OverwriteKeeps(t: Table, rows: seq<Row>)
    ensures t.Keys <= OverwriteAll(t, rows).Keys
    decreases |rows|
  {
    if rows != [] {
      OverwriteKeeps(Overwrite(t, rows[0]), rows[1..]);
    }
  }

  lemma OverwriteSlice(t: Table, rows: seq<Row>, i: nat, j: nat, accepted: nat)
    requires i <= j <= |rows| && i <= accepted
    ensures OverwriteAll(OverwriteAll(t, rows[..i]), Executed(Wrapped(rows[i..j]), accepted - i)) == OverwriteAll(t, Cut(rows[..j], accepted))
    ensures j > accepted ==> Cut(rows[..j], accepted) == Cut(rows, accepted)
    ensures j <= accepted ==> Cut(rows[..j], accepted) == rows[..j]
  {
    var some := Executed(Wrapped(rows[i..j]), accepted - i);
    CutSlices(rows, i, j, accepted);
    OverwriteSplit(t, rows[..i], some);
  }

  lemma CutSlices(rows: seq<Row>, i: nat, j: nat, accepted: nat)
    requires i <= j <= |rows| && i <= accepted
    ensures rows[..i] + Cut(rows[i..j], accepted - i) == Cut(rows[..j], accepted)
    ensures j > accepted ==> Cut(rows[..j], accepted) == Cut(rows, accepted)
  {
    if j > accepted {
      assert rows[..j][..accepted] == rows[..accepted] == rows[..i] + rows[i..j][..accepted - i];
    } else {
      assert rows[..j] == rows[..i] + rows[i..j];
    }
  }

  lemma FewerKeys(t: Table, ids: set<Key>, k: Key)
    requires k in ids && k in t
    ensures |t - ids| < |t|
  {
    assert (t - ids).Keys == t.Keys - ids;
    assert (t.Keys - ids) < t.Keys;
    SmallerSet(t.Keys - ids, t.Keys);
    assert |(t - ids).Keys| == |t - ids| && |t.Keys| == |t|;
  }

  lemma SmallerSet(a: set<Key>, b: set<Key>)
    requires a < b
    ensures |a| < |b|
  {
    assert b == a + (b - a);
    var x :| x in b - a;
    assert |b - a| > 0;
  }

  lemma {:induction false} SomeEarliest(keys: set<Key>)
    requires keys != {}
    ensures exists k :: k in keys && forall l | l in keys :: k.start <= l.start
  {
    var k :| k in keys;
    if keys != {k} {
      SomeEarliest(keys - {k});
      var e :| e in keys - {k} && forall l | l in keys - {k} :: e.start <= l.start;
      var least := if k.start <= e.start then k else e;
      assert forall l | l in keys :: least.start <= l.start by {
        assert forall l | l in keys :: l == k || l in keys - {k};
      }
    }
  }

  /** The query for expired rows: ordered by bucket start, and limited. */
  method FirstBatch(matching: set<Key>, limit: nat) returns (batch: set<Key>)
    requires limit > 0
    ensures batch <= matching && |batch| == if |matching| <= limit then |matching| else limit
    ensures batch == {} ==> matching == {}
    ensures forall k, l | k in batch && l in matching - batch :: k.start <= l.start
  {
    batch := {};
    var rest := matching;
    while rest != {} && |batch| < limit
      invariant batch !! rest && batch + rest == matching && |batch| <= limit
      invariant forall k, l | k in batch && l in rest :: k.start <= l.start
      decreases rest
    {
      SomeEarliest(rest);
      var k :| k in rest && forall l | l in rest :: k.start <= l.start;
      batch := batch + {k};
      rest := rest - {k};
    }
    assert |matching| == |batch| + |rest|;
  }

  function Wrapped(rows: seq<Row>): (r: seq<Option<Row>>)
    ensures |r| == |rows| && Present(r) == rows
  {
    if rows == [] then []
    else
      var r := Wrapped(rows[..|rows| - 1]) + [Some(rows[|rows| - 1])];
      assert r[..|r| - 1] == Wrapped(rows[..|rows| - 1]);
      r
  }
}
