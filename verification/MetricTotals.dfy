/**
 What the metrics table holds, as sums and a maximum over the rows behind it: three columns are
 added up and the fourth is a maximum, after any increments and in every bucket of a roll-up.
 */
module MetricTotals {
  import opened Wrappers
  import opened MetricRollup

  // ----- the totals of some rows -----

  function Sum(xs: seq<int>): int {
    if xs == [] then 0 else xs[0] + Sum(xs[1..])
  }

  function Requests(parts: seq<Vals>): seq<int> {
    if parts == [] then [] else [parts[0].requests] + Requests(parts[1..])
  }

  function Errors(parts: seq<Vals>): seq<int> {
    if parts == [] then [] else [parts[0].errors] + Errors(parts[1..])
  }

  function Latencies(parts: seq<Vals>): seq<int> {
    if parts == [] then [] else [parts[0].totalLatency] + Latencies(parts[1..])
  }

  ghost predicate IsTotal(v: Vals, parts: seq<Vals>) {
    && v.requests == Sum(Requests(parts)) && v.errors == Sum(Errors(parts)) && v.totalLatency == Sum(Latencies(parts))
    && (exists part :: part in parts && part.maxLatency == v.maxLatency)
    && (forall part | part in parts :: part.maxLatency <= v.maxLatency)
  }

  /** The values of the rows of one key. */
  function PartsOf(rows: seq<Row>, k: Key): seq<Vals> {
    if rows == [] then []
    else (if rows[0].key == k then [rows[0].vals] else []) + PartsOf(rows[1..], k)
  }

  lemma OneIsItsTotal(v: Vals)
    ensures IsTotal(v, [v])
  {
    assert [v][1..] == [] && v in [v];
  }

  lemma SumsFromFirst(v: Vals, rest: seq<Vals>)
    ensures Sum(Requests([v] + rest)) == v.requests + Sum(Requests(rest))
    ensures Sum(Errors([v] + rest)) == v.errors + Sum(Errors(rest))
    ensures Sum(Latencies([v] + rest)) == v.totalLatency + Sum(Latencies(rest))
  {
    assert ([v] + rest)[1..] == rest;
    assert Requests([v] + rest)[1..] == Requests(rest);
    assert Errors([v] + rest)[1..] == Errors(rest);
    assert Latencies([v] + rest)[1..] == Latencies(rest);
  }

  /** Two combined values count as the two. */
  lemma CombinedAreBoth(v: Vals, a: Vals, b: Vals, rest: seq<Vals>)
    requires IsTotal(v, [Combine(a, b)] + rest)
    ensures IsTotal(v, [a] + ([b] + rest))
  {
    SumsFromFirst(Combine(a, b), rest);
    SumsFromFirst(a, [b] + rest);
    SumsFromFirst(b, rest);
    CombinedMaximum(v, a, b, rest);
  }

  lemma CombinedMaximum(v: Vals, a: Vals, b: Vals, rest: seq<Vals>)
    requires exists part :: part in [Combine(a, b)] + rest && part.maxLatency == v.maxLatency
    requires forall part | part in [Combine(a, b)] + rest :: part.maxLatency <= v.maxLatency
    ensures exists part :: part in [a] + ([b] + rest) && part.maxLatency == v.maxLatency
    ensures forall part | part in [a] + ([b] + rest) :: part.maxLatency <= v.maxLatency
  {
    var both, all := [Combine(a, b)] + rest, [a] + ([b] + rest);
    assert Combine(a, b) in both && a in all && b in all;
    assert forall part | part in rest :: part in both && part in all;
  }

  // ----- increments -----

  function Before(t: Table, k: Key): seq<Vals> {
    if k in t then [t[k]] else []
  }

  /** The row of a key is the total of what it was and of the rows added, and there is none without any. */
  ghost predicate TotalAt(t: Table, rows: seq<Row>, after: Table, k: Key) {
    && (k in after <==> k in t || exists row :: row in rows && row.key == k)
    && (k in after ==> IsTotal(after[k], Before(t, k) + PartsOf(rows, k)))
  }

  lemma {:induction false} IncrementAllTotals(t: Table, rows: seq<Row>, k: Key)
    ensures TotalAt(t, rows, IncrementAll(t, rows), k)
    decreases |rows|
  {
    if rows == [] {
      assert Before(t, k) + [] == Before(t, k);
      if k in t {
        OneIsItsTotal(t[k]);
      }
    } else {
      var u := Increment(t, rows[0]);
      IncrementAllTotals(u, rows[1..], k);
      FirstCounts(t, rows, IncrementAll(u, rows[1..]), k);
    }
  }

  lemma TotalsEverywhere(t: Table, rows: seq<Row>)
    ensures forall k :: TotalAt(t, rows, IncrementAll(t, rows), k)
  {
    forall k
      ensures TotalAt(t, rows, IncrementAll(t, rows), k)
    {
      IncrementAllTotals(t, rows, k);
    }
  }

  lemma FirstCounts(t: Table, rows: seq<Row>, after: Table, k: Key)
    requires rows != [] && TotalAt(Increment(t, rows[0]), rows[1..], after, k)
    ensures TotalAt(t, rows, after, k)
  {
    var rest := PartsOf(rows[1..], k);
    assert rows == [rows[0]] + rows[1..];
    if rows[0].key == k {
      if k in t {
        CombinedAreBoth(after[k], t[k], rows[0].vals, rest);
      } else {
        assert [] + ([rows[0].vals] + rest) == [rows[0].vals] + rest;
      }
    } else {
      assert [] + rest == rest;
    }
  }

  // ----- roll-ups -----

  /** The rows are the entries of the table, each once. */
  ghost predicate ListsOnce(rows: seq<Row>, t: Table) {
    && (forall i | 0 <= i < |rows| :: rows[i].key in t && t[rows[i].key] == rows[i].vals)
    && (forall i, j | 0 <= i < j < |rows| :: rows[i].key != rows[j].key)
    && (forall k | k in t :: Mentions(rows, k))
  }

  function Moved(rows: seq<Row>, group: Key -> Key): (moved: seq<Row>)
    ensures |moved| == |rows| && forall i | 0 <= i < |rows| :: moved[i] == Row(group(rows[i].key), rows[i].vals)
  {
    seq(|rows|, i requires 0 <= i < |rows| => Row(group(rows[i].key), rows[i].vals))
  }

  lemma ListsRest(rows: seq<Row>, t: Table)
    requires rows != [] && ListsOnce(rows, t)
    ensures ListsOnce(rows[..|rows| - 1], t - {rows[|rows| - 1].key})
  {
    var n := |rows| - 1;
    forall k | k in t - {rows[n].key}
      ensures Mentions(rows[..n], k)
    {
      var i :| 0 <= i < |rows| && rows[i].key == k;
      assert rows[..n][i].key == k;
    }
  }

  lemma ListsNothing(t: Table)
    requires ListsOnce([], t)
    ensures t == map[]
  {
    assert forall k | k in t :: Mentions([], k);
  }

  lemma MovedLast(rows: seq<Row>, group: Key -> Key)
    requires rows != []
    ensures var n := |rows| - 1; Moved(rows, group) == Moved(rows[..n], group) + [Row(group(rows[n].key), rows[n].vals)]
  {
  }

  /** Grouping a table is adding up its rows under their groups' keys, in any order. */
  lemma {:induction false} RegroupIsIncrements(t: Table, group: Key -> Key, rows: seq<Row>)
    requires ListsOnce(rows, t)
    ensures Regroup(t, group) == IncrementAll(map[], Moved(rows, group))
    decreases |rows|
  {
    if rows == [] {
      ListsNothing(t);
    } else {
      var n := |rows| - 1;
      ListsRest(rows, t);
      RegroupIsIncrements(t - {rows[n].key}, group, rows[..n]);
      RegroupLast(t, group, rows[n], Moved(rows[..n], group));
      MovedLast(rows, group);
    }
  }

  lemma RegroupLast(t: Table, group: Key -> Key, last: Row, moved: seq<Row>)
    requires last.key in t && t[last.key] == last.vals
    requires Regroup(t - {last.key}, group) == IncrementAll(map[], moved)
    ensures Regroup(t, group) == IncrementAll(map[], moved + [Row(group(last.key), last.vals)])
  {
    RegroupFrom(t, group, last.key);
    AddLast(moved, Row(group(last.key), last.vals));
  }

  lemma AddLast(rows: seq<Row>, last: Row)
    ensures IncrementAll(map[], rows + [last]) == Increment(IncrementAll(map[], rows), last)
  {
    var t := IncrementAll(map[], rows);
    AnySplit(map[], rows, [last]);
    assert [last][1..] == [] && IncrementAll(t, [last]) == IncrementAll(Increment(t, last), []);
  }

  /** A group's row is the total of the rows that fall into it. */
  lemma RegroupTotals(t: Table, group: Key -> Key, rows: seq<Row>, g: Key)
    requires ListsOnce(rows, t)
    ensures g in Regroup(t, group) <==> exists row :: row in rows && group(row.key) == g
    ensures g in Regroup(t, group) ==> IsTotal(Regroup(t, group)[g], PartsOf(Moved(rows, group), g))
  {
    RegroupIsIncrements(t, group, rows);
    IncrementAllTotals(map[], Moved(rows, group), g);
    assert [] + PartsOf(Moved(rows, group), g) == PartsOf(Moved(rows, group), g);
    MovedTo(rows, group, g);
  }

  lemma MovedTo(rows: seq<Row>, group: Key -> Key, g: Key)
    ensures (exists row :: row in Moved(rows, group) && row.key == g) <==> exists row :: row in rows && group(row.key) == g
  {
    if row :| row in rows && group(row.key) == g {
      var i :| 0 <= i < |rows| && rows[i] == row;
      assert Moved(rows, group)[i].key == g;
    }
    if row :| row in Moved(rows, group) && row.key == g {
      var i :| 0 <= i < |rows| && Moved(rows, group)[i] == row;
      assert rows[i] in rows && group(rows[i].key) == g;
    }
  }

  // What a roll-up's query says, in terms of the columns.

  /** The fine row falls into the coarse bucket: same dimensions, and a time within it. */
  predicate InBucket(k: Key, g: Key) {
    k.dims == g.dims && IsStart(g.granularity, g.start) && g.start <= k.start < g.start + Span(g.granularity)
  }

  lemma BucketIff(to: Granularity, k: Key, g: Key)
    ensures Bucket(to)(k) == g <==> g.granularity == to && InBucket(k, g)
  {
    FloorIff(to, k.start, g.start);
  }

  /** The rows are those of the granularity from `start` on, if there is one, and before `end`, each once. */
  ghost predicate ListsRange(rows: seq<Row>, t: Table, from: Granularity, start: Option<int>, end: int) {
    && (forall i | 0 <= i < |rows| ::
          var k := rows[i].key;
          && k in t && t[k] == rows[i].vals
          && k.granularity == from && k.start < end && (start.None? || start.value <= k.start))
    && (forall i, j | 0 <= i < j < |rows| :: rows[i].key != rows[j].key)
    && (forall k | k in t && k.granularity == from && k.start < end && (start.None? || start.value <= k.start) :: Mentions(rows, k))
  }

  lemma RangeIsSelection(rows: seq<Row>, t: Table, from: Granularity, start: Option<int>, end: int)
    requires ListsRange(rows, t, from, start, end)
    ensures ListsOnce(rows, Select(t, from, start, end))
  {
  }

  /** The values of the rows that fall into a bucket. */
  function Within(rows: seq<Row>, g: Key): seq<Vals> {
    if rows == [] then []
    else (if InBucket(rows[0].key, g) then [rows[0].vals] else []) + Within(rows[1..], g)
  }

  lemma {:induction false} PartsAreWithin(rows: seq<Row>, to: Granularity, g: Key)
    requires g.granularity == to
    ensures PartsOf(Moved(rows, Bucket(to)), g) == Within(rows, g)
    decreases |rows|
  {
    if rows != [] {
      BucketIff(to, rows[0].key, g);
      PartsAreWithin(rows[1..], to, g);
      assert Moved(rows, Bucket(to))[1..] == Moved(rows[1..], Bucket(to));
    }
  }

  /**
   A bucket's row in an aggregate is the total of the rows of the range that fall into it: the
   three sums and the maximum. There is one exactly when some row does.
   */
  lemma AggregateTotals(t: Table, from: Granularity, to: Granularity, start: Option<int>, end: int, rows: seq<Row>, g: Key)
    requires ListsRange(rows, t, from, start, end)
    ensures var agg := Aggregate(t, from, to, start, end);
            && (g in agg <==> g.granularity == to && exists row :: row in rows && InBucket(row.key, g))
            && (g in agg ==> IsTotal(agg[g], Within(rows, g)))
  {
    RangeIsSelection(rows, t, from, start, end);
    RegroupTotals(Select(t, from, start, end), Bucket(to), rows, g);
    forall row | row in rows
      ensures Bucket(to)(row.key) == g <==> g.granularity == to && InBucket(row.key, g)
    {
      BucketIff(to, row.key, g);
    }
    if g.granularity == to {
      PartsAreWithin(rows, to, g);
    }
  }

  // ----- conservation -----

  /** All rows of a table, put together per subject. */
  function Overall(): Key -> Key {
    (k: Key) => Key(Week, 0, k.dims)
  }

  /** The values of the rows of one subject, whatever their times. */
  function OfDims(rows: seq<Row>, dims: Dims): seq<Vals> {
    if rows == [] then []
    else (if rows[0].key.dims == dims then [rows[0].vals] else []) + OfDims(rows[1..], dims)
  }

  lemma {:induction false} PartsAreOfDims(rows: seq<Row>, dims: Dims)
    ensures PartsOf(Moved(rows, Overall()), Key(Week, 0, dims)) == OfDims(rows, dims)
    decreases |rows|
  {
    if rows != [] {
      PartsAreOfDims(rows[1..], dims);
      assert Moved(rows, Overall())[1..] == Moved(rows[1..], Overall());
    }
  }

  lemma OverallTotal(t: Table, rows: seq<Row>, dims: Dims)
    requires ListsOnce(rows, t)
    ensures var all := Regroup(t, Overall()); var k := Key(Week, 0, dims);
            && (k in all <==> exists row :: row in rows && row.key.dims == dims)
            && (k in all ==> IsTotal(all[k], OfDims(rows, dims)))
  {
    RegroupTotals(t, Overall(), rows, Key(Week, 0, dims));
    PartsAreOfDims(rows, dims);
  }

  /**
   A roll-up conserves, for each subject, the three sums and the maximum over the rows it
   selects: the fine rows and the coarse ones have the same total.
   */
  lemma AggregateConserves(t: Table, from: Granularity, to: Granularity, start: Option<int>, end: int,
                           fine: seq<Row>, coarse: seq<Row>, dims: Dims)
    requires ListsRange(fine, t, from, start, end) && ListsOnce(coarse, Aggregate(t, from, to, start, end))
    ensures (exists row :: row in fine && row.key.dims == dims) <==> (exists row :: row in coarse && row.key.dims == dims)
    ensures (exists row :: row in fine && row.key.dims == dims) ==>
              exists v :: IsTotal(v, OfDims(fine, dims)) && IsTotal(v, OfDims(coarse, dims))
  {
    RangeIsSelection(fine, t, from, start, end);
    RegroupTwice(Select(t, from, start, end), Bucket(to), Overall(), Overall());
    OverallTotal(Select(t, from, start, end), fine, dims);
    OverallTotal(Aggregate(t, from, to, start, end), coarse, dims);
  }
}
