/**
 Any number of cleanups of one pair of granularities: each rolls up the fine rows it finds
 before `end`, over the coarse rows, and then deletes the fine rows before `cut`. The fine
 rows change in between, but only after the last cut, and none of those goes away.
 */
module CleanupRuns {
  import opened Wrappers
  import opened MetricRollup

  function OfGranularity(t: Table, g: Granularity): Table {
    map k | k in t && k.granularity == g :: t[k]
  }

  /** Only fine rows, each starting on its own grid. */
  predicate FineOnly(t: Table, from: Granularity) {
    forall k | k in t :: k.granularity == from && Aligned(from, k.start)
  }

  ghost predicate SameAt(t: Table, u: Table, g: Key) {
    (g in t <==> g in u) && (g in t ==> t[g] == u[g])
  }

  // ----- cuts on the grid -----

  /** The first bucket start at or after a time. */
  function Ceiling(from: Granularity, time: int): int
    requires from.Minute? || from.Day?
  {
    Floor(from, time + (if from.Minute? then 59 else DAY - 1))
  }

  lemma CeilingIsFirst(from: Granularity, time: int, other: int)
    requires (from.Minute? || from.Day?) && Aligned(from, other)
    ensures other < time <==> other < Ceiling(from, time)
    ensures Aligned(from, Ceiling(from, time)) && time <= Ceiling(from, time) < time + DAY
  {
    if from.Minute? {
      MinuteCeiling(time, other / 60);
    } else {
      DayCeiling(time, other / DAY);
    }
  }

  lemma MinuteCeiling(time: int, minute: int)
    ensures var c := (time + 59) / 60 * 60; (minute * 60 < time <==> minute * 60 < c) && c / 60 * 60 == c && time <= c < time + 60
  {
    var q := (time + 59) / 60;
    assert time <= 60 * q < time + 60;
  }

  lemma DayCeiling(time: int, day: int)
    ensures var c := (time + DAY - 1) / DAY * DAY; (day * DAY < time <==> day * DAY < c) && c / DAY * DAY == c && time <= c < time + DAY
  {
    var q := (time + DAY - 1) / DAY;
    assert time <= DAY * q < time + DAY;
  }

  /** Between two cleanups: what is left of a coarse bucket after the cut is rolled up again, without what was before it. */
  predicate CutInside(from: Granularity, to: Granularity, bucket: int, cut: int, end: int)
    requires from.Minute? || from.Day?
  {
    bucket < Ceiling(from, cut) < end && Floor(to, Ceiling(from, cut)) == bucket
  }

  // ----- runs -----

  datatype Times = Times(end: int, cut: int)

  predicate Ordered(times: seq<Times>) {
    && (forall i | 0 <= i < |times| :: times[i].cut <= times[i].end)
    && (forall i, j | 0 <= i < j < |times| :: times[i].cut <= times[j].cut && times[i].end <= times[j].end)
  }

  predicate Follows(before: Table, cut: int, after: Table) {
    && (forall k | k in after :: k.start >= cut)
    && (forall k | k in before && k.start >= cut :: k in after)
  }

  /** `stock` holds the fine rows that each cleanup finds. */
  ghost predicate Feasible(from: Granularity, stock: seq<Table>, times: seq<Times>)
    decreases |times|
  {
    && |stock| == |times|
    && (times == [] ||
        var n := |times| - 1;
        && Feasible(from, stock[..n], times[..n])
        && FineOnly(stock[n], from)
        && (n > 0 ==> Follows(stock[n - 1], times[n - 1].cut, stock[n])))
  }

  /** The coarse rows after the run, if none is deleted. */
  ghost function Coarse(from: Granularity, to: Granularity, stock: seq<Table>, times: seq<Times>): Table
    requires |stock| == |times|
    decreases |times|
  {
    if times == [] then map[]
    else
      var n := |times| - 1;
      Coarse(from, to, stock[..n], times[..n]) + Aggregate(stock[n], from, to, None, times[n].end)
  }

  lemma AggregateIsFine(t: Table, from: Granularity, to: Granularity, end: int)
    ensures FineOnly(Aggregate(t, from, to, None, end), to)
  {
    forall k | k in Aggregate(t, from, to, None, end)
      ensures k.granularity == to && Aligned(to, k.start)
    {
      AggregateIsOf(t, from, to, None, end, k);
      var f :| f in t && k == Bucket(to)(f);
      FloorBounds(to, f.start);
    }
  }

  lemma {:induction false} CoarseIsFine(from: Granularity, to: Granularity, stock: seq<Table>, times: seq<Times>)
    requires |stock| == |times|
    ensures FineOnly(Coarse(from, to, stock, times), to)
    decreases |times|
  {
    if times != [] {
      var n := |times| - 1;
      CoarseIsFine(from, to, stock[..n], times[..n]);
      AggregateIsFine(stock[n], from, to, times[n].end);
    }
  }

  /** Tables written one over the other. */
  function Overlaid(more: seq<Table>): Table {
    if more == [] then map[] else Overlaid(more[..|more| - 1]) + more[|more| - 1]
  }

  lemma {:induction false} CoarseIsOverlaid(from: Granularity, to: Granularity, stock: seq<Table>, times: seq<Times>, more: seq<Table>)
    requires |stock| == |times| == |more|
    requires forall i | 0 <= i < |more| :: more[i] == Aggregate(stock[i], from, to, None, times[i].end)
    ensures Coarse(from, to, stock, times) == Overlaid(more)
    decreases |times|
  {
    if times != [] {
      var n := |times| - 1;
      CoarseIsOverlaid(from, to, stock[..n], times[..n], more[..n]);
    }
  }

  function Below(t: Table, cut: int): Table {
    map k | k in t && k.start < cut :: t[k]
  }

  /** Every fine row there has been, each as it was last. */
  ghost function Ever(stock: seq<Table>, times: seq<Times>): Table
    requires |stock| == |times|
    decreases |times|
  {
    if times == [] then map[]
    else
      var n := |times| - 1;
      if n == 0 then stock[0]
      else Below(Ever(stock[..n], times[..n]), times[n - 1].cut) + stock[n]
  }

  lemma FeasibleNext(from: Granularity, stock: seq<Table>, times: seq<Times>)
    requires |stock| == |times| > 0
    requires var n := |times| - 1;
             && Feasible(from, stock[..n], times[..n]) && FineOnly(stock[n], from)
             && (n > 0 ==> Follows(stock[n - 1], times[n - 1].cut, stock[n]))
    ensures Feasible(from, stock, times)
    ensures var n := |times| - 1;
            Ever(stock, times) == if n == 0 then stock[0] else Below(Ever(stock[..n], times[..n]), times[n - 1].cut) + stock[n]
  {
  }

  lemma OrderedPrefix(times: seq<Times>)
    requires times != [] && Ordered(times)
    ensures var n := |times| - 1;
            && Ordered(times[..n]) && times[n].cut <= times[n].end
            && (n > 0 ==> times[n - 1].cut <= times[n].cut && times[n - 1].end <= times[n].end)
  {
  }

  /** The latest fine rows are those after the last cut. */
  lemma {:induction false} EverIsFine(from: Granularity, stock: seq<Table>, times: seq<Times>)
    requires Feasible(from, stock, times) && Ordered(times) && times != []
    ensures FineOnly(Ever(stock, times), from)
    ensures var n := |times| - 1; forall k | k in Ever(stock, times) && k.start >= times[n].cut :: k in stock[n]
    decreases |times|
  {
    var n := |times| - 1;
    OrderedPrefix(times);
    if n > 0 {
      EverIsFine(from, stock[..n], times[..n]);
    }
  }

  /** The row is in both tables, with one value and before the ends, or in neither. */
  predicate SameRow(t: Table, end: int, u: Table, end': int, k: Key) {
    && (k in t && k.start < end <==> k in u && k.start < end')
    && (k in t && k.start < end ==> t[k] == u[k])
  }

  lemma SelectionAt(t: Table, u: Table, from: Granularity, to: Granularity, end: int, end': int, g: Key)
    requires forall k | Bucket(to)(k) == g :: SameRow(t, end, u, end', k)
    ensures SameAt(Aggregate(t, from, to, None, end), Aggregate(u, from, to, None, end'), g)
  {
    var a, b := Select(t, from, None, end), Select(u, from, None, end');
    var local := map k | k in a && Bucket(to)(k) == g :: a[k];
    forall k
      ensures k in local <==> k in b && Bucket(to)(k) == g
      ensures k in local ==> local[k] == b[k]
    {
      assert Bucket(to)(k) == g ==> SameRow(t, end, u, end', k);
    }
    RegroupLocal(a, local, Bucket(to), g);
    RegroupLocal(b, local, Bucket(to), g);
  }

  lemma NotSelected(t: Table, from: Granularity, to: Granularity, end: int, g: Key)
    requires forall k | Bucket(to)(k) == g && k in t :: k.start >= end
    ensures g !in Aggregate(t, from, to, None, end)
  {
    RegroupKeys(Select(t, from, None, end), Bucket(to), g);
  }

  /** A bucket that no row after the cut belongs to stays as it was. */
  lemma BucketIsPast(from: Granularity, to: Granularity, ever: Table, cut: int, end: int, fine: Table, end': int, g: Key)
    requires cut <= end <= end' && forall k | k in fine :: k.start >= cut
    requires forall k | Bucket(to)(k) == g && k in fine :: k.start >= end'
    requires forall k | Bucket(to)(k) == g && k in ever :: k.start < cut || k.start >= end'
    ensures g !in Aggregate(fine, from, to, None, end')
    ensures SameAt(Aggregate(ever, from, to, None, end), Aggregate(Below(ever, cut) + fine, from, to, None, end'), g)
  {
    NotSelected(fine, from, to, end', g);
    var both := Below(ever, cut) + fine;
    forall k | Bucket(to)(k) == g
      ensures SameRow(ever, end, both, end', k)
    {
      assert k in both <==> (k in ever && k.start < cut) || k in fine;
    }
    SelectionAt(ever, both, from, to, end, end', g);
  }

  /** A bucket with a row before `end` after the cut still has it in the next cleanup. */
  lemma StillThere(from: Granularity, to: Granularity, ever: Table, cut: int, end: int, fine: Table, end': int, g: Key)
    requires end <= end' && Follows(ever, cut, fine)
    requires forall k | Bucket(to)(k) == g && k in ever :: k.start >= cut
    ensures g in Aggregate(ever, from, to, None, end) ==> g in Aggregate(fine, from, to, None, end')
  {
    var a, b := Select(ever, from, None, end), Select(fine, from, None, end');
    RegroupKeys(a, Bucket(to), g);
    RegroupKeys(b, Bucket(to), g);
    if k :| k in a && Bucket(to)(k) == g {
      assert k in b;
    }
  }

  /** A bucket that only rows after the cut belong to is rolled up afresh. */
  lemma BucketIsAhead(from: Granularity, to: Granularity, coarse: Table, ever: Table, cut: int, end: int, fine: Table, end': int, g: Key)
    requires end <= end' && Follows(ever, cut, fine)
    requires forall k | Bucket(to)(k) == g && k in ever :: k.start >= cut
    requires SameAt(coarse, Aggregate(ever, from, to, None, end), g)
    ensures SameAt(coarse + Aggregate(fine, from, to, None, end'), Aggregate(Below(ever, cut) + fine, from, to, None, end'), g)
  {
    var both := Below(ever, cut) + fine;
    forall k | Bucket(to)(k) == g
      ensures SameRow(fine, end', both, end', k)
    {
      assert k in both <==> (k in ever && k.start < cut) || k in fine;
    }
    SelectionAt(fine, both, from, to, end', end', g);
    StillThere(from, to, ever, cut, end, fine, end', g);
  }

  lemma OneMoreCleanup(from: Granularity, to: Granularity, coarse: Table, ever: Table, cut: int, end: int, fine: Table, end': int, g: Key)
    requires RollsUp(from, to) && FineOnly(ever, from) && FineOnly(fine, from) && cut <= end <= end' && Follows(ever, cut, fine)
    requires SameAt(coarse, Aggregate(ever, from, to, None, end), g) && Aligned(to, g.start)
    requires !CutInside(from, to, g.start, cut, end')
    ensures SameAt(coarse + Aggregate(fine, from, to, None, end'), Aggregate(Below(ever, cut) + fine, from, to, None, end'), g)
  {
    var first := Ceiling(from, cut);
    if first <= g.start {
      forall k | Bucket(to)(k) == g && k in ever
        ensures k.start >= cut
      {
        CeilingIsFirst(from, cut, k.start);
        FloorBounds(to, k.start);
      }
      BucketIsAhead(from, to, coarse, ever, cut, end, fine, end', g);
    } else {
      forall k | Bucket(to)(k) == g && (k in ever || k in fine)
        ensures k in fine ==> k.start >= end'
        ensures k.start < cut || k.start >= end'
      {
        CeilingIsFirst(from, cut, k.start);
        if first <= k.start {
          FloorIsMonotone(to, g.start, first);
          FloorIsMonotone(to, first, k.start);
        }
      }
      BucketIsPast(from, to, ever, cut, end, fine, end', g);
    }
  }

  predicate CutAt(from: Granularity, to: Granularity, bucket: int, times: seq<Times>, i: nat)
    requires (from.Minute? || from.Day?) && 0 < i < |times|
  {
    CutInside(from, to, bucket, times[i - 1].cut, times[i].end)
  }

  predicate NoCutInside(from: Granularity, to: Granularity, bucket: int, times: seq<Times>)
    requires from.Minute? || from.Day?
  {
    forall i | 0 < i < |times| :: !CutAt(from, to, bucket, times, i)
  }

  lemma UncutPrefix(from: Granularity, to: Granularity, bucket: int, times: seq<Times>)
    requires (from.Minute? || from.Day?) && times != [] && NoCutInside(from, to, bucket, times)
    ensures NoCutInside(from, to, bucket, times[..|times| - 1])
  {
    var shorter := times[..|times| - 1];
    forall i | 0 < i < |shorter|
      ensures !CutAt(from, to, bucket, shorter, i)
    {
      assert !CutAt(from, to, bucket, times, i);
    }
  }

  /** A coarse row is complete after any run that makes no cut inside its bucket. */
  lemma {:induction false} RowIsComplete(from: Granularity, to: Granularity, stock: seq<Table>, times: seq<Times>, g: Key)
    requires RollsUp(from, to) && Feasible(from, stock, times) && Ordered(times) && times != []
    requires Aligned(to, g.start) && NoCutInside(from, to, g.start, times)
    ensures SameAt(Coarse(from, to, stock, times), Aggregate(Ever(stock, times), from, to, None, times[|times| - 1].end), g)
    decreases |times|
  {
    var n := |times| - 1;
    OrderedPrefix(times);
    if n > 0 {
      var before, earlier := stock[..n], times[..n];
      UncutPrefix(from, to, g.start, times);
      RowIsComplete(from, to, before, earlier, g);
      assert !CutAt(from, to, g.start, times, n);
      EverIsFine(from, before, earlier);
      OneMoreCleanup(from, to, Coarse(from, to, before, earlier), Ever(before, earlier),
                     times[n - 1].cut, times[n - 1].end, stock[n], times[n].end, g);
    } else {
      assert stock[..0] == [] && times[..0] == [];
      assert Coarse(from, to, [], []) == map[];
    }
  }

  // ----- what a cut inside a bucket does -----

  const ONE := Vals(1, 0, 0, 0)

  lemma RegroupOne(k: Key, v: Vals, group: Key -> Key)
    ensures Regroup(map[k := v], group) == map[group(k) := v]
  {
    RegroupFrom(map[k := v], group, k);
    assert map[k := v] - {k} == map[];
  }

  /** The cleanup finds no row of the bucket but `l`. */
  ghost predicate OnlySees(fine: Table, from: Granularity, to: Granularity, end: int, l: Key) {
    forall k | k in Select(fine, from, None, end) && Bucket(to)(k) == Bucket(to)(l) :: k == l && fine[k] == ONE
  }

  lemma AggregateOfOne(fine: Table, from: Granularity, to: Granularity, end: int, l: Key)
    requires OnlySees(fine, from, to, end, l)
    ensures Bucket(to)(l) in Aggregate(fine, from, to, None, end) <==> l in Select(fine, from, None, end)
    ensures Bucket(to)(l) in Aggregate(fine, from, to, None, end) ==> Aggregate(fine, from, to, None, end)[Bucket(to)(l)] == ONE
  {
    var rows := Select(fine, from, None, end);
    RegroupKeys(rows, Bucket(to), Bucket(to)(l));
    if l in rows {
      RegroupLocal(rows, map[l := ONE], Bucket(to), Bucket(to)(l));
      RegroupOne(l, ONE, Bucket(to));
    }
  }

  /** Once a cleanup finds only one row of a bucket, the coarse row counts that one alone, whatever it counted before. */
  lemma {:induction false} LateRowsOverwrite(from: Granularity, to: Granularity, stock: seq<Table>, times: seq<Times>, i: nat, l: Key)
    requires |stock| == |times| && i < |times|
    requires forall j | i <= j < |times| :: OnlySees(stock[j], from, to, times[j].end, l)
    requires l in Select(stock[i], from, None, times[i].end)
    ensures Bucket(to)(l) in Coarse(from, to, stock, times)
    ensures Coarse(from, to, stock, times)[Bucket(to)(l)] == ONE
    decreases |times|
  {
    var n := |times| - 1;
    AggregateOfOne(stock[n], from, to, times[n].end, l);
    if i < n {
      LateRowsOverwrite(from, to, stock[..n], times[..n], i, l);
    }
  }

  /** The coarse rows are of the buckets that the fine rows belong to. */
  lemma {:induction false} CoarseKeys(from: Granularity, to: Granularity, stock: seq<Table>, times: seq<Times>, buckets: set<Key>)
    requires |stock| == |times|
    requires forall i, k | 0 <= i < |stock| && k in stock[i] && k.granularity == from :: Bucket(to)(k) in buckets
    ensures forall g | g in Coarse(from, to, stock, times) :: g in buckets
    decreases |times|
  {
    if times != [] {
      var n := |times| - 1;
      CoarseKeys(from, to, stock[..n], times[..n], buckets);
      forall g | g in Aggregate(stock[n], from, to, None, times[n].end)
        ensures g in buckets
      {
        AggregateIsOf(stock[n], from, to, None, times[n].end, g);
      }
    }
  }

  lemma AggregateOfTwo(from: Granularity, to: Granularity, k: Key, l: Key, end: int)
    requires k != l && k.granularity == from == l.granularity && k.start < end && l.start < end
    requires Bucket(to)(k) == Bucket(to)(l)
    ensures Aggregate(map[k := ONE, l := ONE], from, to, None, end) == map[Bucket(to)(l) := Vals(2, 0, 0, 0)]
  {
    var t: Table := map[k := ONE, l := ONE];
    assert Select(t, from, None, end) == t;
    RegroupFrom(t, Bucket(to), l);
    assert t - {l} == map[k := ONE];
    RegroupOne(k, ONE, Bucket(to));
  }
}
