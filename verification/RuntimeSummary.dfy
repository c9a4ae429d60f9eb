/** The runtime-metrics summary: totals by status, and nearest-rank percentiles of the durations. */
module RuntimeSummary {
  import opened Wrappers
  import opened Text

  // ----- counting and sorting -----

  predicate Sorted(s: seq<int>) {
    forall i, j | 0 <= i < j < |s| :: s[i] <= s[j]
  }

  function AtMost(s: seq<int>, v: int): nat {
    if s == [] then 0 else (if s[0] <= v then 1 else 0) + AtMost(s[1..], v)
  }

  function Below(s: seq<int>, v: int): nat {
    if s == [] then 0 else (if s[0] < v then 1 else 0) + Below(s[1..], v)
  }

  function Insert(x: int, s: seq<int>): (r: seq<int>)
    ensures multiset(r) == multiset(s) + multiset{x}
  {
    if s == [] || x <= s[0] then [x] + s
    else
      assert s == [s[0]] + s[1..];
      [s[0]] + Insert(x, s[1..])
  }

  function Sort(s: seq<int>): (r: seq<int>)
    ensures multiset(r) == multiset(s) && |r| == |s|
  {
    if s == [] then []
    else
      assert s == [s[0]] + s[1..];
      var r := Insert(s[0], Sort(s[1..]));
      assert |multiset(r)| == |multiset(s)|;
      r
  }

  lemma AllAbove(r: seq<int>, x: int, s: seq<int>, low: int)
    requires multiset(r) == multiset(s) + multiset{x} && low <= x && forall v | v in s :: low <= v
    ensures forall i | 0 <= i < |r| :: low <= r[i]
  {
    forall i | 0 <= i < |r|
      ensures low <= r[i]
    {
      assert r[i] in multiset(r);
      assert r[i] != x ==> r[i] in s;
    }
  }

  lemma {:induction false} InsertKeepsSorted(x: int, s: seq<int>)
    requires Sorted(s)
    ensures Sorted(Insert(x, s))
  {
    if s != [] && x > s[0] {
      InsertKeepsSorted(x, s[1..]);
      AllAbove(Insert(x, s[1..]), x, s[1..], s[0]);
    }
  }

  lemma {:induction false} SortSorts(s: seq<int>)
    ensures Sorted(Sort(s)) && multiset(Sort(s)) == multiset(s)
  {
    if s != [] {
      SortSorts(s[1..]);
      InsertKeepsSorted(s[0], Sort(s[1..]));
    }
  }

  lemma {:induction false} InsertCounts(x: int, s: seq<int>, v: int)
    ensures AtMost(Insert(x, s), v) == AtMost(s, v) + if x <= v then 1 else 0
    ensures Below(Insert(x, s), v) == Below(s, v) + if x < v then 1 else 0
  {
    if s == [] || x <= s[0] {
      assert ([x] + s)[1..] == s;
    } else {
      InsertCounts(x, s[1..], v);
      assert ([s[0]] + Insert(x, s[1..]))[1..] == Insert(x, s[1..]);
    }
  }

  lemma {:induction false} SortCounts(s: seq<int>, v: int)
    ensures AtMost(Sort(s), v) == AtMost(s, v) && Below(Sort(s), v) == Below(s, v)
  {
    if s != [] {
      SortCounts(s[1..], v);
      InsertCounts(s[0], Sort(s[1..]), v);
    }
  }

  lemma {:induction false} CountsInSorted(s: seq<int>, i: nat)
    requires Sorted(s) && i < |s|
    ensures AtMost(s, s[i]) >= i + 1 && Below(s, s[i]) <= i
  {
    if i == 0 {
      NoneBelow(s, s[0]);
    } else {
      CountsInSorted(s[1..], i - 1);
    }
  }

  lemma {:induction false} NoneBelow(s: seq<int>, v: int)
    requires forall i | 0 <= i < |s| :: v <= s[i]
    ensures Below(s, v) == 0
  {
    if s != [] {
      NoneBelow(s[1..], v);
    }
  }

  lemma {:induction false} CountsOrdered(s: seq<int>, v: int, w: int)
    requires v < w
    ensures AtMost(s, v) <= Below(s, w)
  {
    if s != [] {
      CountsOrdered(s[1..], v, w);
    }
  }

  // ----- percentiles -----

  /** At least `x` of the values are at or below `v`, and fewer are strictly below. */
  predicate IsRank(s: seq<int>, x: real, v: int) {
    v in s && AtMost(s, v) as real >= x && (Below(s, v) as real) < x
  }

  function Ceil(x: real): int {
    -(-x).Floor
  }

  function ValueAt(values: seq<int>, x: real): int
    requires values != []
  {
    var index := Ceil(x) - 1;
    if index < 0 then values[0]
    else if index >= |values| then values[|values| - 1]
    else values[index]
  }

  function NearestRank(values: seq<int>, p: real): int {
    if values == [] then 0 else ValueAt(values, Part(p, |values|))
  }

  function Part(p: real, n: nat): real {
    p * n as real
  }

  /** Neither clamp is needed for a rank above zero and at most the number of values. */
  lemma RankInRange(values: seq<int>, x: real) returns (i: nat)
    requires 0.0 < x <= |values| as real
    ensures i < |values| && ValueAt(values, x) == values[i] && i == Ceil(x) - 1
    ensures (i as real) < x <= (i + 1) as real
  {
    i := Ceil(x) - 1;
  }

  /** The value picked for a rank is the one the two counts ask for, among the values as they came. */
  lemma ValueAtIsRank(s: seq<int>, x: real)
    requires 0.0 < x <= |s| as real
    ensures IsRank(s, x, ValueAt(Sort(s), x))
  {
    var sorted := Sort(s);
    SortSorts(s);
    var i := RankInRange(sorted, x);
    CountsInSorted(sorted, i);
    SortCounts(s, sorted[i]);
    assert sorted[i] in multiset(s);
  }

  /** The two counts leave only one possible value. */
  lemma RankIsUnique(s: seq<int>, x: real, v: int, w: int)
    requires IsRank(s, x, v) && IsRank(s, x, w)
    ensures v == w
  {
    if v < w {
      CountsOrdered(s, v, w);
    } else if w < v {
      CountsOrdered(s, w, v);
    }
  }

  /** A higher rank never gives a lower value, and none exceeds the maximum. */
  lemma ValuesAreOrdered(sorted: seq<int>, x: real, y: real)
    requires Sorted(sorted) && 0.0 < x <= y <= |sorted| as real
    ensures ValueAt(sorted, x) <= ValueAt(sorted, y) <= sorted[|sorted| - 1]
  {
    var i := RankInRange(sorted, x);
    var j := RankInRange(sorted, y);
    assert i <= j;
  }

  // ----- the summary -----

  /** A row of the series; the bucket's start is in seconds since the epoch. */
  datatype Point = Point(
    bucketStart: int, status: string, name: string, topic: string, count: int, totalDuration: int, maxDuration: int)

  /** A listed point: trimmed texts, the count, the mean and the maximum. */
  datatype Listed = Listed(
    bucketStart: int, status: string, name: string, topic: string, count: int, avgDuration: int, maxDuration: int)

  datatype Summary = Summary(
    total: int, success: int, error: int, skipped: int, pending: int, published: int, failed: int,
    maxDuration: int, p50: int, p95: int, p99: int)

  function Rows(rows: seq<Option<Point>>): seq<Point> {
    if rows == [] then []
    else if rows[|rows| - 1].Some? then Rows(rows[..|rows| - 1]) + [rows[|rows| - 1].value]
    else Rows(rows[..|rows| - 1])
  }

  function List(row: Point): Listed {
    Listed(row.bucketStart, TrimSpace(row.status), TrimSpace(row.name), TrimSpace(row.topic), row.count,
           if row.count > 0 && row.totalDuration > 0 then row.totalDuration / row.count else 0, row.maxDuration)
  }

  /** What a listed point says of its row: texts trimmed, and the mean rounded down, or zero without a positive total and count. */
  ghost predicate IsListed(listed: Listed, row: Point) {
    && listed.bucketStart == row.bucketStart && listed.status == TrimSpace(row.status)
    && listed.name == TrimSpace(row.name) && listed.topic == TrimSpace(row.topic)
    && listed.count == row.count && listed.maxDuration == row.maxDuration
    && (row.count > 0 && row.totalDuration > 0 ==>
          listed.avgDuration * row.count <= row.totalDuration < (listed.avgDuration + 1) * row.count)
    && (row.count <= 0 || row.totalDuration <= 0 ==> listed.avgDuration == 0)
  }

  lemma ListIsListed(row: Point)
    ensures IsListed(List(row), row)
  {
    if row.count > 0 && row.totalDuration > 0 {
      MeanBounds(row.totalDuration, row.count);
    }
  }

  lemma MeanBounds(total: int, count: int)
    requires count > 0
    ensures total / count * count <= total < (total / count + 1) * count
  {
  }

  function ListAll(rows: seq<Point>): (list: seq<Listed>)
    ensures |list| == |rows| && forall i | 0 <= i < |rows| :: list[i] == List(rows[i])
  {
    seq(|rows|, i requires 0 <= i < |rows| => List(rows[i]))
  }

  function Total(rows: seq<Point>): int {
    if rows == [] then 0 else Total(rows[..|rows| - 1]) + rows[|rows| - 1].count
  }

  function TotalOf(rows: seq<Point>, status: string): int {
    if rows == [] then 0
    else TotalOf(rows[..|rows| - 1], status) + if TrimSpace(rows[|rows| - 1].status) == status then rows[|rows| - 1].count else 0
  }

  const STATUSES: seq<string> := ["success", "error", "skipped", "pending", "published", "failed"]

  /** The counts of rows whose status is none of the six. */
  function TotalOfOthers(rows: seq<Point>): int {
    if rows == [] then 0
    else TotalOfOthers(rows[..|rows| - 1]) + if TrimSpace(rows[|rows| - 1].status) in STATUSES then 0 else rows[|rows| - 1].count
  }

  function MaxOf(rows: seq<Point>): int {
    if rows == [] then 0
    else
      var m := MaxOf(rows[..|rows| - 1]);
      if rows[|rows| - 1].maxDuration > m then rows[|rows| - 1].maxDuration else m
  }

  /** The six statuses and the rest partition the total; the six alone give it exactly when the rest is nothing. */
  lemma {:induction false} TotalIsPartitioned(rows: seq<Point>)
    ensures Total(rows) == TotalOf(rows, "success") + TotalOf(rows, "error") + TotalOf(rows, "skipped")
                           + TotalOf(rows, "pending") + TotalOf(rows, "published") + TotalOf(rows, "failed") + TotalOfOthers(rows)
  {
    if rows != [] {
      TotalIsPartitioned(rows[..|rows| - 1]);
      OneStatusOnly(TrimSpace(rows[|rows| - 1].status));
    }
  }

  function Hits(status: string, name: string): nat {
    if status == name then 1 else 0
  }

  lemma OneStatusOnly(status: string)
    ensures Hits(status, "success") + Hits(status, "error") + Hits(status, "skipped") + Hits(status, "pending")
            + Hits(status, "published") + Hits(status, "failed") == if status in STATUSES then 1 else 0
  {
    assert |"success"| == 7 && |"error"| == 5 && |"skipped"| == 7 && |"pending"| == 7 && |"published"| == 9 && |"failed"| == 6;
    assert "success"[1] == 'u' && "skipped"[1] == 'k' && "pending"[1] == 'e';
    assert status in STATUSES <==> status == STATUSES[0] || status == STATUSES[1] || status == STATUSES[2]
                                   || status == STATUSES[3] || status == STATUSES[4] || status == STATUSES[5];
  }

  function Highest(highest: int, sorted: seq<int>): int {
    if sorted != [] && sorted[|sorted| - 1] > highest then sorted[|sorted| - 1] else highest
  }

  function SummaryOf(rows: seq<Point>, durations: seq<int>): Summary {
    Summary(Total(rows), TotalOf(rows, "success"), TotalOf(rows, "error"), TotalOf(rows, "skipped"),
            TotalOf(rows, "pending"), TotalOf(rows, "published"), TotalOf(rows, "failed"),
            Highest(MaxOf(rows), Sort(durations)),
            Reported(durations, 0.50), Reported(durations, 0.95), Reported(durations, 0.99))
  }

  /** The largest of the rows' maxima, the durations and zero. */
  ghost predicate IsHighest(m: int, rows: seq<Point>, durations: seq<int>) {
    && m >= 0 && (forall row | row in rows :: row.maxDuration <= m) && (forall d | d in durations :: d <= m)
    && (m == 0 || (exists row :: row in rows && row.maxDuration == m) || m in durations)
  }

  lemma {:induction false} MaxOfIsHighest(rows: seq<Point>)
    ensures IsHighest(MaxOf(rows), rows, [])
  {
    if rows != [] {
      var n := |rows| - 1;
      MaxOfIsHighest(rows[..n]);
      assert rows == rows[..n] + [rows[n]];
    }
  }

  lemma LastIsMost(sorted: seq<int>, durations: seq<int>)
    requires Sorted(sorted) && multiset(sorted) == multiset(durations) && sorted != []
    ensures sorted[|sorted| - 1] in durations && forall d | d in durations :: d <= sorted[|sorted| - 1]
  {
    assert sorted[|sorted| - 1] in multiset(durations);
    forall d | d in durations
      ensures d <= sorted[|sorted| - 1]
    {
      assert d in multiset(sorted);
      var i :| 0 <= i < |sorted| && sorted[i] == d;
    }
  }

  lemma LastIsHighest(durations: seq<int>)
    requires durations != []
    ensures var sorted := Sort(durations); sorted[|sorted| - 1] in durations && forall d | d in durations :: d <= sorted[|sorted| - 1]
  {
    SortSorts(durations);
    LastIsMost(Sort(durations), durations);
  }

  /** The summary's fields in terms of the rows and of the durations as they came. */
  ghost predicate IsSummary(s: Summary, rows: seq<Point>, durations: seq<int>) {
    && s.total == Total(rows) && s.success == TotalOf(rows, "success") && s.error == TotalOf(rows, "error")
    && s.skipped == TotalOf(rows, "skipped") && s.pending == TotalOf(rows, "pending")
    && s.published == TotalOf(rows, "published") && s.failed == TotalOf(rows, "failed")
    && IsHighest(s.maxDuration, rows, durations)
    && IsPercentile(durations, 0.50, s.p50) && IsPercentile(durations, 0.95, s.p95) && IsPercentile(durations, 0.99, s.p99)
  }

  lemma SummaryIs(rows: seq<Point>, durations: seq<int>)
    ensures IsSummary(SummaryOf(rows, durations), rows, durations)
  {
    HighestOfBoth(rows, durations);
    ReportedIs(durations, 0.50, Reported(durations, 0.50));
    ReportedIs(durations, 0.95, Reported(durations, 0.95));
    ReportedIs(durations, 0.99, Reported(durations, 0.99));
  }

  /** The value meets the two counts for the fraction, or is zero when there are no durations. */
  ghost predicate IsPercentile(durations: seq<int>, p: real, v: int) {
    if durations == [] then v == 0 else IsRank(durations, p * |durations| as real, v)
  }

  lemma ReportedIs(durations: seq<int>, p: real, v: int)
    requires 0.0 < p <= 1.0 && v == Reported(durations, p)
    ensures IsPercentile(durations, p, v)
  {
    if durations != [] {
      ReportedIsPercentile(durations, p);
    }
  }

  lemma HighestOfBoth(rows: seq<Point>, durations: seq<int>)
    ensures IsHighest(Highest(MaxOf(rows), Sort(durations)), rows, durations)
  {
    MaxOfIsHighest(rows);
    if durations != [] {
      LastIsHighest(durations);
      HigherOf(MaxOf(rows), rows, Sort(durations), durations);
    }
  }

  lemma HigherOf(m: int, rows: seq<Point>, sorted: seq<int>, durations: seq<int>)
    requires IsHighest(m, rows, []) && sorted != []
    requires sorted[|sorted| - 1] in durations && forall d | d in durations :: d <= sorted[|sorted| - 1]
    ensures IsHighest(Highest(m, sorted), rows, durations)
  {
  }

  /** The value at rank p * n of the sorted durations. */
  function Reported(durations: seq<int>, p: real): int {
    NearestRank(Sort(durations), p)
  }

  lemma RankOfPart(p: real, n: nat)
    requires n > 0 && 0.0 < p <= 1.0
    ensures 0.0 < Part(p, n) <= n as real
  {
  }

  /** What is reported for a fraction is the percentile of the durations as they came. */
  lemma ReportedIsPercentile(durations: seq<int>, p: real)
    requires durations != [] && 0.0 < p <= 1.0
    ensures IsRank(durations, p * |durations| as real, Reported(durations, p))
  {
    RankOfPart(p, |durations|);
    ValueAtIsRank(durations, Part(p, |durations|));
  }

  lemma P50AtMostP95(durations: seq<int>)
    requires durations != [] && Sorted(Sort(durations))
    ensures Reported(durations, 0.50) <= Reported(durations, 0.95)
  {
    var n := |durations| as real;
    ValuesAreOrdered(Sort(durations), 0.50 * n, 0.95 * n);
  }

  lemma P95AtMostP99(durations: seq<int>)
    requires durations != [] && Sorted(Sort(durations))
    ensures Reported(durations, 0.95) <= Reported(durations, 0.99)
  {
    var n := |durations| as real;
    ValuesAreOrdered(Sort(durations), 0.95 * n, 0.99 * n);
  }

  lemma AtMostLast(sorted: seq<int>, x: real)
    requires Sorted(sorted) && 0.0 < x <= |sorted| as real
    ensures ValueAt(sorted, x) <= sorted[|sorted| - 1]
  {
    var i := RankInRange(sorted, x);
  }

  lemma P99AtMostLast(durations: seq<int>, sorted: seq<int>)
    requires durations != [] && sorted == Sort(durations) && Sorted(sorted)
    ensures Reported(durations, 0.99) <= sorted[|sorted| - 1]
  {
    RankOfPart(0.99, |durations|);
    AtMostLast(sorted, Part(0.99, |durations|));
  }

  /** The reported percentiles are in order, and none exceeds the reported maximum. */
  lemma SummaryIsOrdered(rows: seq<Point>, durations: seq<int>)
    requires durations != []
    ensures var s := SummaryOf(rows, durations); s.p50 <= s.p95 <= s.p99 <= s.maxDuration
  {
    SortSorts(durations);
    P50AtMostP95(durations);
    P95AtMostP99(durations);
    P99AtMostLast(durations, Sort(durations));
  }

  // ----- the loop -----

  method SortInPlace(a: array<int>)
    modifies a
    ensures a[..] == Sort(old(a[..]))
  {
    var sorted := Sort(a[..]);
    for i := 0 to a.Length
      invariant forall k | 0 <= k < i :: a[k] == sorted[k]
    {
      a[i] := sorted[i];
    }
    assert a[..] == sorted;
  }

  /** The summary's fields while the loop adds to them. */
  class Running {
    var total: int
    var success: int
    var error: int
    var skipped: int
    var pending: int
    var published: int
    var failed: int
    var highest: int

    constructor ()
      ensures Holds([])
    {
      total, success, error, skipped, pending, published, failed, highest := 0, 0, 0, 0, 0, 0, 0, 0;
    }

    ghost predicate Holds(rows: seq<Point>)
      reads this
    {
      && total == Total(rows) && highest == MaxOf(rows)
      && success == TotalOf(rows, "success") && error == TotalOf(rows, "error") && skipped == TotalOf(rows, "skipped")
      && pending == TotalOf(rows, "pending") && published == TotalOf(rows, "published") && failed == TotalOf(rows, "failed")
    }

    method Add(row: Point, ghost rows: seq<Point>)
      requires Holds(rows)
      modifies this
      ensures Holds(rows + [row])
    {
      var status := TrimSpace(row.status);
      OneStatusOnly(status);
      assert (rows + [row])[..|rows|] == rows;
      total := total + row.count;
      if status == "success" {
        success := success + row.count;
      } else if status == "error" {
        error := error + row.count;
      } else if status == "skipped" {
        skipped := skipped + row.count;
      } else if status == "pending" {
        pending := pending + row.count;
      } else if status == "published" {
        published := published + row.count;
      } else if status == "failed" {
        failed := failed + row.count;
      }
      if row.maxDuration > highest {
        highest := row.maxDuration;
      }
    }
  }

  /** The loop over the rows. */
  method AddRows(rows: seq<Option<Point>>) returns (list: seq<Listed>, running: Running)
    ensures fresh(running) && running.Holds(Rows(rows))
    ensures list == ListAll(Rows(rows)) && forall i | 0 <= i < |list| :: IsListed(list[i], Rows(rows)[i])
  {
    running := new Running();
    list := [];
    for i := 0 to |rows|
      invariant fresh(running) && running.Holds(Rows(rows[..i])) && list == ListAll(Rows(rows[..i]))
    {
      assert rows[..i + 1][..i] == rows[..i];
      if rows[i].None? {
        continue;
      }
      list := list + [List(rows[i].value)];
      running.Add(rows[i].value, Rows(rows[..i]));
    }
    assert rows[..|rows|] == rows;
    forall i | 0 <= i < |list|
      ensures IsListed(list[i], Rows(rows)[i])
    {
      ListIsListed(Rows(rows)[i]);
    }
  }

  /** What is done with the durations, when there are any. */
  method SortAndPick(durations: array<int>, highest: int) returns (p50: int, p95: int, p99: int, top: int)
    requires durations.Length > 0
    modifies durations
    ensures durations[..] == Sort(old(durations[..]))
    ensures p50 == Reported(old(durations[..]), 0.50) && p95 == Reported(old(durations[..]), 0.95)
    ensures p99 == Reported(old(durations[..]), 0.99)
    ensures top == Highest(highest, durations[..])
  {
    SortInPlace(durations);
    p50 := NearestRank(durations[..], 0.50);
    p95 := NearestRank(durations[..], 0.95);
    p99 := NearestRank(durations[..], 0.99);
    top := highest;
    if durations[durations.Length - 1] > highest {
      top := durations[durations.Length - 1];
    }
  }

  method Summarise(running: Running, durations: array<int>, ghost rows: seq<Point>) returns (summary: Summary)
    requires running.Holds(rows)
    modifies durations
    ensures durations[..] == Sort(old(durations[..])) && summary == SummaryOf(rows, old(durations[..]))
  {
    var highest := running.highest;
    var p50, p95, p99 := 0, 0, 0;
    if durations.Length > 0 {
      p50, p95, p99, highest := SortAndPick(durations, highest);
    }
    summary := Summary(running.total, running.success, running.error, running.skipped, running.pending,
                       running.published, running.failed, highest, p50, p95, p99);
  }

  method BuildRuntimeSeries(rows: seq<Option<Point>>, durations: array<int>) returns (list: seq<Listed>, summary: Summary)
    modifies durations
    ensures durations[..] == Sort(old(durations[..]))
    ensures list == ListAll(Rows(rows)) && forall i | 0 <= i < |list| :: IsListed(list[i], Rows(rows)[i])
    ensures summary == SummaryOf(Rows(rows), old(durations[..])) && IsSummary(summary, Rows(rows), old(durations[..]))
  {
    var running;
    list, running := AddRows(rows);
    SummaryIs(Rows(rows), durations[..]);
    summary := Summarise(running, durations, Rows(rows));
  }
}
