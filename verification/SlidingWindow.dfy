/**
 The sliding-window rate limiter: a Lua script over a sorted set with an expiry, refined
 to a plain log of the times at which requests were allowed.
 */
module SlidingWindow {
  import opened Text
  import opened Wrappers

  // ----- the plain log -----

  predicate Ascending(times: seq<int>) {
    forall i, j | 0 <= i < j < |times| :: times[i] <= times[j]
  }

  function CountAfter(times: seq<int>, lo: int): nat {
    if times == [] then 0
    else CountAfter(times[..|times| - 1], lo) + (if times[|times| - 1] > lo then 1 else 0)
  }

  /** Entries of the half-open interval (lo, hi]. */
  function CountIn(times: seq<int>, lo: int, hi: int): nat {
    if times == [] then 0
    else CountIn(times[..|times| - 1], lo, hi) + (if lo < times[|times| - 1] <= hi then 1 else 0)
  }

  /** As the number of positions it is. */
  lemma {:induction false} CountInCounts(times: seq<int>, lo: int, hi: int)
    ensures CountIn(times, lo, hi) == |Between(times, lo, hi)|
  {
    if times != [] {
      var n := |times| - 1;
      CountInCounts(times[..n], lo, hi);
      assert Between(times, lo, hi) == Between(times[..n], lo, hi) + if lo < times[n] <= hi then {n} else {};
    }
  }

  /** The positions of the times after `lo` and up to `hi`. */
  function Between(times: seq<int>, lo: int, hi: int): set<nat> {
    set i: nat | i < |times| && lo < times[i] <= hi
  }

  predicate Allowed(log: seq<int>, limit: int, window: nat, now: int) {
    CountIn(log, now - window, now) < limit
  }

  function Admit(log: seq<int>, limit: int, window: nat, now: int): seq<int> {
    if Allowed(log, limit, window, now) then log + [now] else log
  }

  /** The log after a run of requests. */
  function RunLog(log: seq<int>, limit: int, window: nat, requests: seq<int>): seq<int>
    decreases |requests|
  {
    if requests == [] then log else RunLog(Admit(log, limit, window, requests[0]), limit, window, requests[1..])
  }

  function Answers(log: seq<int>, limit: int, window: nat, requests: seq<int>): seq<bool>
    decreases |requests|
  {
    if requests == [] then []
    else [Allowed(log, limit, window, requests[0])] + Answers(Admit(log, limit, window, requests[0]), limit, window, requests[1..])
  }

  lemma {:induction false} CountAfterIsCountIn(times: seq<int>, lo: int, hi: int)
    requires forall i | 0 <= i < |times| :: times[i] <= hi
    ensures CountAfter(times, lo) == CountIn(times, lo, hi)
  {
    if times != [] {
      CountAfterIsCountIn(times[..|times| - 1], lo, hi);
    }
  }

  lemma {:induction false} CountMonotone(times: seq<int>, lo: int, lo': int, hi: int)
    requires lo <= lo'
    ensures CountIn(times, lo', hi) <= CountAfter(times, lo') <= CountAfter(times, lo)
  {
    if times != [] {
      CountMonotone(times[..|times| - 1], lo, lo', hi);
    }
  }

  // ----- the bound -----

  /** At each admission there was room in the window that ended there. */
  predicate RoomAtEach(log: seq<int>, limit: int, window: nat) {
    log == [] ||
    (CountAfter(log, log[|log| - 1] - window) <= limit && RoomAtEach(log[..|log| - 1], limit, window))
  }

  /** The limiter's state after a run up to time `last`. */
  predicate Reached(log: seq<int>, limit: int, window: nat, last: int) {
    Ascending(log) && RoomAtEach(log, limit, window) && (log != [] ==> log[|log| - 1] <= last)
  }

  lemma AdmitKeepsReached(log: seq<int>, limit: int, window: nat, last: int, now: int)
    requires Reached(log, limit, window, last) && last <= now
    ensures Reached(Admit(log, limit, window, now), limit, window, now)
  {
    if Allowed(log, limit, window, now) {
      assert forall i | 0 <= i < |log| :: log[i] <= now;
      CountAfterIsCountIn(log, now - window, now);
      AppendRoom(log, limit, window, now);
    }
  }

  lemma AppendRoom(log: seq<int>, limit: int, window: nat, now: int)
    requires RoomAtEach(log, limit, window) && CountAfter(log, now - window) < limit
    ensures RoomAtEach(log + [now], limit, window)
  {
    var longer := log + [now];
    assert longer[..|longer| - 1] == log && longer[|longer| - 1] == now;
    assert CountAfter(longer, now - window) <= CountAfter(log, now - window) + 1;
  }

  lemma {:induction false} RunKeepsReached(log: seq<int>, limit: int, window: nat, last: int, requests: seq<int>)
    requires Reached(log, limit, window, last) && Ascending([last] + requests)
    ensures Reached(RunLog(log, limit, window, requests), limit, window, ([last] + requests)[|requests|])
    decreases |requests|
  {
    if requests != [] {
      var whole, rest := [last] + requests, [requests[0]] + requests[1..];
      assert last == whole[0] && requests[0] == whole[1];
      AdmitKeepsReached(log, limit, window, last, requests[0]);
      assert rest == requests;
      assert forall i | 0 <= i < |rest| :: rest[i] == whole[i + 1];
      RunKeepsReached(Admit(log, limit, window, requests[0]), limit, window, requests[0], requests[1..]);
    }
  }

  lemma {:induction false} RoomBoundsEveryInterval(log: seq<int>, limit: int, window: nat, a: int)
    requires RoomAtEach(log, limit, window) && 0 <= limit
    ensures CountIn(log, a, a + window) <= limit
  {
    if log != [] {
      var t := log[|log| - 1];
      if a < t <= a + window {
        CountMonotone(log, t - window, a, a + window);
      } else {
        RoomBoundsEveryInterval(log[..|log| - 1], limit, window, a);
      }
    }
  }

  lemma {:induction false} NoRoomNoLog(limit: int, window: nat, requests: seq<int>)
    requires limit <= 0
    ensures RunLog([], limit, window, requests) == []
    decreases |requests|
  {
    if requests != [] {
      NoRoomNoLog(limit, window, requests[1..]);
    }
  }

  /** Over any run with a clock that never goes back, no window-long interval holds more than `limit` allowed requests. */
  lemma WindowBound(limit: int, window: nat, requests: seq<int>, a: int)
    requires Ascending(requests)
    ensures CountIn(RunLog([], limit, window, requests), a, a + window) <= if limit > 0 then limit else 0
  {
    if limit <= 0 {
      NoRoomNoLog(limit, window, requests);
    } else if requests != [] {
      var start := [requests[0]] + requests;
      assert forall i | 0 <= i < |start| :: start[i] == requests[if i == 0 then 0 else i - 1];
      RunKeepsReached([], limit, window, requests[0], requests);
      RoomBoundsEveryInterval(RunLog([], limit, window, requests), limit, window, a);
    }
  }

  // ----- retry-after -----

  /** The first entry after `lo`. */
  function Oldest(times: seq<int>, lo: int): int
    requires CountAfter(times, lo) > 0
  {
    var n := |times| - 1;
    if CountAfter(times[..n], lo) > 0 then Oldest(times[..n], lo) else times[n]
  }

  lemma {:induction false} OldestIsLeast(times: seq<int>, lo: int)
    requires Ascending(times) && CountAfter(times, lo) > 0
    ensures lo < Oldest(times, lo) && Oldest(times, lo) in times
    ensures forall i | 0 <= i < |times| && times[i] > lo :: Oldest(times, lo) <= times[i]
    ensures forall x | lo <= x < Oldest(times, lo) :: CountAfter(times, x) == CountAfter(times, lo)
    ensures CountAfter(times, Oldest(times, lo)) < CountAfter(times, lo)
  {
    var n := |times| - 1;
    var init := times[..n];
    if CountAfter(init, lo) > 0 {
      OldestIsLeast(init, lo);
      forall i | 0 <= i < |times| && times[i] > lo
        ensures Oldest(times, lo) <= times[i]
      {
        if i < n {
          assert init[i] == times[i];
        } else {
          var k :| 0 <= k < |init| && init[k] == Oldest(init, lo);
          assert times[k] <= times[n];
        }
      }
      CountMonotone(init, lo, Oldest(times, lo), 0);
    } else {
      forall x | lo <= x
        ensures CountAfter(init, x) == 0
      {
        CountMonotone(init, lo, x, 0);
      }
      forall i | 0 <= i < n
        ensures times[i] <= lo
      {
        ZeroCount(init, lo, i);
      }
    }
  }

  lemma {:induction false} ZeroCount(times: seq<int>, lo: int, i: nat)
    requires CountAfter(times, lo) == 0 && i < |times|
    ensures times[i] <= lo
  {
    if i < |times| - 1 {
      ZeroCount(times[..|times| - 1], lo, i);
    }
  }

  /** Milliseconds the script tells a rejected caller to wait. */
  function RetryAfterMs(log: seq<int>, window: nat, now: int): int {
    if CountAfter(log, now - window) > 0 then Oldest(log, now - window) + window - now else 0
  }

  /** A rejection with a positive limit always names a wait of at least a millisecond, and the window is exactly full. */
  lemma RejectionIsFull(log: seq<int>, limit: int, window: nat, now: int)
    requires limit > 0 && Reached(log, limit, window, now) && !Allowed(log, limit, window, now)
    ensures CountAfter(log, now - window) == limit && RetryAfterMs(log, window, now) > 0
  {
    assert forall i | 0 <= i < |log| :: log[i] <= log[|log| - 1];
    CountAfterIsCountIn(log, now - window, now);
    RoomBoundsEveryInterval(log, limit, window, now - window);
    OldestIsLeast(log, now - window);
  }

  lemma AnswerAt(log: seq<int>, limit: int, window: nat, now: int, t: int)
    requires limit > 0 && Reached(log, limit, window, now) && !Allowed(log, limit, window, now) && now <= t
    ensures Allowed(log, limit, window, t) <==> t >= now + RetryAfterMs(log, window, now)
  {
    RejectionIsFull(log, limit, window, now);
    OldestIsLeast(log, now - window);
    assert forall i | 0 <= i < |log| :: log[i] <= log[|log| - 1];
    CountAfterIsCountIn(log, t - window, t);
    var oldest := Oldest(log, now - window);
    if t >= oldest + window {
      CountMonotone(log, oldest, t - window, t);
    }
  }

  /**
   After a rejection, every request before now + retry_after is rejected too, and the first
   one at or after that instant is allowed.
   */
  lemma {:induction false} RetryAfterIsExact(log: seq<int>, limit: int, window: nat, now: int, requests: seq<int>)
    requires limit > 0 && Reached(log, limit, window, now) && !Allowed(log, limit, window, now)
    requires Ascending([now] + requests)
    ensures var answers, ready := Answers(log, limit, window, requests), now + RetryAfterMs(log, window, now);
            ExactAnswers(requests, answers, ready)
    decreases |requests|
  {
    var ready := now + RetryAfterMs(log, window, now);
    if requests != [] {
      var t := requests[0];
      assert now == ([now] + requests)[0] && t == ([now] + requests)[1];
      AnswerAt(log, limit, window, now, t);
      AnswersLength(Admit(log, limit, window, t), limit, window, requests[1..]);
      var rest := [now] + requests[1..];
      assert forall i | 0 <= i < |rest| :: rest[i] == ([now] + requests)[if i == 0 then 0 else i + 1];
      if t < ready {
        RetryAfterIsExact(log, limit, window, now, requests[1..]);
        RejectedFirst(t, requests[1..], Answers(log, limit, window, requests[1..]), ready);
        assert [t] + requests[1..] == requests;
      } else {
        FirstIsLeast(now, requests);
      }
    }
  }

  /** Rejected before `ready`, and allowed on the first request from then on. */
  ghost predicate ExactAnswers(requests: seq<int>, answers: seq<bool>, ready: int) {
    && |answers| == |requests|
    && (forall i | 0 <= i < |requests| && requests[i] < ready :: !answers[i])
    && (forall i | 0 <= i < |requests| && requests[i] >= ready && (i == 0 || requests[i - 1] < ready) :: answers[i])
  }

  lemma RejectedFirst(t: int, requests: seq<int>, answers: seq<bool>, ready: int)
    requires t < ready && ExactAnswers(requests, answers, ready)
    ensures ExactAnswers([t] + requests, [false] + answers, ready)
  {
    var all, said := [t] + requests, [false] + answers;
    forall i | 0 <= i < |all|
      ensures all[i] < ready ==> !said[i]
      ensures all[i] >= ready && (i == 0 || all[i - 1] < ready) ==> said[i]
    {
      if i > 0 {
        assert all[i] == requests[i - 1] && said[i] == answers[i - 1];
        var j := i - 1;
        assert j > 0 ==> all[j] == requests[j - 1];
        assert requests[j] >= ready && (j == 0 || requests[j - 1] < ready) ==> answers[j];
      }
    }
  }

  lemma FirstIsLeast(now: int, requests: seq<int>)
    requires Ascending([now] + requests) && requests != []
    ensures forall i | 0 <= i < |requests| :: requests[0] <= requests[i]
  {
    var whole := [now] + requests;
    forall i | 0 <= i < |requests|
      ensures requests[0] <= requests[i]
    {
      assert whole[1] == requests[0] && whole[i + 1] == requests[i];
    }
  }

  lemma {:induction false} AnswersLength(log: seq<int>, limit: int, window: nat, requests: seq<int>)
    ensures |Answers(log, limit, window, requests)| == |requests|
    decreases |requests|
  {
    if requests != [] {
      AnswersLength(Admit(log, limit, window, requests[0]), limit, window, requests[1..]);
    }
  }

  /** The wait is kept - a request at that instant is allowed - exactly when the limit is positive. */
  lemma RetryAfterIsKeptIff(log: seq<int>, limit: int, window: nat, now: int)
    requires Reached(log, limit, window, now) && !Allowed(log, limit, window, now)
    ensures Allowed(log, limit, window, now + RetryAfterMs(log, window, now)) <==> limit > 0
  {
    if limit > 0 {
      RejectionIsFull(log, limit, window, now);
      AnswerAt(log, limit, window, now, now + RetryAfterMs(log, window, now));
    }
  }

  /** With limit 0 the first request is rejected, told to wait 0 ms, and rejected again at that very instant. */
  lemma ZeroLimitIsNeverKept(window: nat, now: int)
    ensures Reached([], 0, window, now) && !Allowed([], 0, window, now)
    ensures RetryAfterMs([], window, now) == 0 && !Allowed([], 0, window, now + RetryAfterMs([], window, now))
  {
    RetryAfterIsKeptIff([], 0, window, now);
  }

  // ----- the Retry-After header -----

  const SECOND_NS := 1_000_000_000

  /** Go's division, which truncates towards zero. */
  function Quotient(a: int, b: nat): int
    requires b > 0
  {
    if a >= 0 then a / b else -(-a / b)
  }

  /** retryAfterHeaderValue: whole seconds, at least one. The sum wraps around in 64 bits. */
  function HeaderSeconds(retryAfterNs: int64): int {
    if retryAfterNs <= 0 then 1
    else
      var seconds := Quotient(Wrap(retryAfterNs + SECOND_NS - 1), SECOND_NS);
      if seconds <= 0 then 1 else seconds
  }

  function RetryAfterHeader(retryAfterNs: int64): string {
    PrintInt(HeaderSeconds(retryAfterNs))
  }

  /** The longest wait whose rounding does not wrap around. */
  const LONGEST_NS: int := INT64_MAX - (SECOND_NS - 1)

  lemma WrappedHeader(retryAfterNs: int64)
    requires retryAfterNs > LONGEST_NS
    ensures HeaderSeconds(retryAfterNs) == 1
  {
    assert Wrap(retryAfterNs + SECOND_NS - 1) == retryAfterNs + SECOND_NS - 1 - TWO64;
  }

  /**
   Rounding shortens the wait exactly when it wraps around, less than a second below the largest
   duration; otherwise it adds less than a second to a positive one. Any other is told to wait one.
   */
  lemma HeaderRounding(retryAfterNs: int64)
    ensures retryAfterNs <= HeaderSeconds(retryAfterNs) * 1_000_000_000 <==> retryAfterNs <= INT64_MAX - 999_999_999
    ensures retryAfterNs <= INT64_MAX - 999_999_999 ==>
              (HeaderSeconds(retryAfterNs) * 1_000_000_000 < retryAfterNs + 1_000_000_000 <==> retryAfterNs > 0)
    ensures retryAfterNs <= 0 || retryAfterNs > INT64_MAX - 999_999_999 ==> HeaderSeconds(retryAfterNs) == 1
    ensures Atoi(RetryAfterHeader(retryAfterNs)) == Some(HeaderSeconds(retryAfterNs))
  {
    if retryAfterNs > LONGEST_NS {
      WrappedHeader(retryAfterNs);
    }
    AtoiInvertsPrintInt(HeaderSeconds(retryAfterNs));
  }

  // ----- the sorted set -----

  /** The sorted set that holds the entries of a log later than `cut`, under their member names. */
  function Scores(names: seq<string>, times: seq<int>, cut: int): map<string, int>
    requires |names| == |times|
  {
    if names == [] then map[]
    else
      var n := |names| - 1;
      var init := Scores(names[..n], times[..n], cut);
      if times[n] > cut then init[names[n] := times[n]] else init
  }

  predicate Distinct(names: seq<string>) {
    forall i, j | 0 <= i < j < |names| :: names[i] != names[j]
  }

  ghost predicate IsEntry(names: seq<string>, times: seq<int>, cut: int, m: string, score: int)
    requires |names| == |times|
  {
    exists i :: 0 <= i < |names| && names[i] == m && times[i] == score && score > cut
  }

  lemma {:induction false} ScoresAreEntries(names: seq<string>, times: seq<int>, cut: int, m: string)
    requires |names| == |times|
    ensures m in Scores(names, times, cut) ==> IsEntry(names, times, cut, m, Scores(names, times, cut)[m])
  {
    if names != [] {
      var n := |names| - 1;
      if m == names[n] && times[n] > cut {
        assert names[n] == m;
      } else if m in Scores(names, times, cut) {
        ScoresAreEntries(names[..n], times[..n], cut, m);
        var score := Scores(names, times, cut)[m];
        var i :| 0 <= i < n && names[..n][i] == m && times[..n][i] == score && score > cut;
        assert names[i] == m;
      }
    }
  }

  lemma {:induction false} EntriesAreScored(names: seq<string>, times: seq<int>, cut: int, i: nat)
    requires |names| == |times| && Distinct(names) && i < |names| && times[i] > cut
    ensures names[i] in Scores(names, times, cut) && Scores(names, times, cut)[names[i]] == times[i]
  {
    if i < |names| - 1 {
      EntriesAreScored(names[..|names| - 1], times[..|names| - 1], cut, i);
    }
  }

  lemma {:induction false} ScoresCount(names: seq<string>, times: seq<int>, cut: int)
    requires |names| == |times| && Distinct(names)
    ensures |Scores(names, times, cut)| == CountAfter(times, cut)
  {
    if names != [] {
      var n := |names| - 1;
      var init := Scores(names[..n], times[..n], cut);
      ScoresCount(names[..n], times[..n], cut);
      ScoresAreEntries(names[..n], times[..n], cut, names[n]);
      assert names[n] !in init;
      assert init[names[n] := times[n]].Keys == init.Keys + {names[n]};
    }
  }

  /** ZREMRANGEBYSCORE key -inf min. */
  function RemoveUpTo(scores: map<string, int>, min: int): map<string, int> {
    map m | m in scores && scores[m] > min :: scores[m]
  }

  lemma RemoveUpToRaisesCut(names: seq<string>, times: seq<int>, cut: int, min: int)
    requires |names| == |times| && Distinct(names) && cut <= min
    ensures RemoveUpTo(Scores(names, times, cut), min) == Scores(names, times, min)
  {
    var a, b := RemoveUpTo(Scores(names, times, cut), min), Scores(names, times, min);
    forall m
      ensures m in a <==> m in b
      ensures m in a ==> a[m] == b[m]
    {
      ScoresAreEntries(names, times, cut, m);
      ScoresAreEntries(names, times, min, m);
      if m in a {
        var i :| 0 <= i < |names| && names[i] == m && times[i] == a[m];
        EntriesAreScored(names, times, min, i);
      }
      if m in b {
        var i :| 0 <= i < |names| && names[i] == m && times[i] == b[m];
        EntriesAreScored(names, times, cut, i);
      }
    }
  }

  lemma OldScoresAreGone(names: seq<string>, times: seq<int>, cut: int)
    requires |names| == |times| && forall i | 0 <= i < |times| :: times[i] <= cut
    ensures Scores(names, times, cut) == map[]
  {
    forall m
      ensures m !in Scores(names, times, cut)
    {
      ScoresAreEntries(names, times, cut, m);
    }
  }

  datatype Verdict = Verdict(allowed: bool, current: int, retryAfterMs: int)

  datatype Result = Result(allowed: bool, current: int, limit: int, remaining: int, retryAfterNs: int)

  /** One key of the limiter in Redis, and the script that is the only thing to touch it. */
  class SlidingWindowKey {
    var scores: map<string, int>
    var expireAt: int
    ghost var names: seq<string>
    ghost var times: seq<int>
    ghost var last: int

    /** After a call at time `last`, the set holds the allowed requests of the window that ends there. */
    ghost predicate Valid(limit: int, window: nat)
      reads this
    {
      && |names| == |times| && Distinct(names)
      && Reached(times, limit, window, last)
      && scores == Scores(names, times, last - window)
      && expireAt == last + window
    }

    constructor (limit: int, window: nat, now: int)
      ensures Valid(limit, window) && times == [] && last == now
    {
      scores, expireAt, names, times, last := map[], now + window, [], [], now;
    }

    /** ZRANGE key 0 0 WITHSCORES: the lowest score. */
    method Lowest() returns (score: int)
      requires scores != map[]
      ensures score in scores.Values && forall m | m in scores :: score <= scores[m]
    {
      var rest := scores.Keys;
      var m :| m in rest;
      score := scores[m];
      rest := rest - {m};
      while rest != {}
        invariant rest <= scores.Keys
        invariant exists k :: k in scores && scores[k] == score
        invariant forall k | k in scores && k !in rest :: score <= scores[k]
        decreases rest
      {
        m :| m in rest;
        if scores[m] < score {
          score := scores[m];
        }
        rest := rest - {m};
      }
    }

    /** Expiry and ZREMRANGEBYSCORE. A key that has lapsed held nothing that would not be removed anyway. */
    method Purge(window: nat, now: int, lapsed: bool)
      requires |names| == |times| && Distinct(names) && forall i | 0 <= i < |times| :: times[i] <= last
      requires scores == Scores(names, times, last - window) && expireAt == last + window
      requires last <= now && (lapsed ==> expireAt <= now)
      modifies this`scores
      ensures scores == Scores(names, times, now - window)
    {
      if lapsed {
        scores := map[];
        OldScoresAreGone(names, times, now - window);
      } else {
        RemoveUpToRaisesCut(names, times, last - window, now - window);
      }
      scores := RemoveUpTo(scores, now - window);
    }

    /** The reply's retry_after for a request that is turned away. */
    method Retry(window: nat, now: int) returns (ms: int)
      requires |names| == |times| && Distinct(names) && Ascending(times)
      requires scores == Scores(names, times, now - window) && |scores| == CountAfter(times, now - window)
      ensures ms == RetryAfterMs(times, window, now)
    {
      if |scores| == 0 {
        return 0;
      }
      var oldest := Lowest();
      OldestIsLowest(names, times, now - window, oldest);
      return if oldest + window - now > 0 then oldest + window - now else 0;
    }

    /** ZADD of an allowed request. */
    method Add(member: string, now: int, ghost cut: int)
      requires |names| == |times| && Distinct(names) && member !in names && cut < now && scores == Scores(names, times, cut)
      modifies this`scores, this`names, this`times
      ensures names == old(names) + [member] && times == old(times) + [now]
      ensures Distinct(names) && scores == Scores(names, times, cut)
    {
      AppendScore(names, times, cut, member, now);
      scores := scores[member := now];
      names, times := names + [member], times + [now];
    }

    /**
     The script. `lapsed` says whether Redis has dropped the key by the time of this call, which
     it may do at any moment from its expiry on: the answers do not depend on it.
     */
    method Eval(limit: int, window: nat, now: int, member: string, lapsed: bool) returns (v: Verdict)
      requires window > 0
      requires Valid(limit, window) && last <= now && member !in names
      requires lapsed ==> expireAt <= now
      modifies this
      ensures Valid(limit, window) && last == now
      ensures times == Admit(old(times), limit, window, now) && names <= old(names) + [member]
      ensures v.allowed == Allowed(old(times), limit, window, now)
      ensures v.current == CountIn(old(times), now - window, now) + (if v.allowed then 1 else 0)
      ensures v.retryAfterMs == if v.allowed then 0 else RetryAfterMs(old(times), window, now)
    {
      var minScore := now - window;
      assert forall i | 0 <= i < |times| :: times[i] <= last;
      Purge(window, now, lapsed);
      CountAfterIsCountIn(times, minScore, now);
      ScoresCount(names, times, minScore);
      AdmitKeepsReached(times, limit, window, last, now);
      var current := |scores|;
      last, expireAt := now, now + window;
      if current >= limit {
        var retryAfter := Retry(window, now);
        v := Verdict(false, current, retryAfter);
      } else {
        Add(member, now, minScore);
        v := Verdict(true, current + 1, 0);
      }
    }
  }

  lemma OldestIsLowest(names: seq<string>, times: seq<int>, cut: int, lowest: int)
    requires |names| == |times| && Distinct(names) && Ascending(times) && CountAfter(times, cut) > 0
    requires lowest in Scores(names, times, cut).Values
    requires forall m | m in Scores(names, times, cut) :: lowest <= Scores(names, times, cut)[m]
    ensures lowest == Oldest(times, cut) && cut < lowest
  {
    OldestIsLeast(times, cut);
    var i :| 0 <= i < |times| && times[i] == Oldest(times, cut);
    EntriesAreScored(names, times, cut, i);
    var m :| m in Scores(names, times, cut) && Scores(names, times, cut)[m] == lowest;
    ScoresAreEntries(names, times, cut, m);
  }

  lemma AppendScore(names: seq<string>, times: seq<int>, cut: int, name: string, time: int)
    requires |names| == |times| && Distinct(names) && name !in names && time > cut
    ensures Distinct(names + [name])
    ensures Scores(names + [name], times + [time], cut) == Scores(names, times, cut)[name := time]
  {
    assert (names + [name])[..|names|] == names && (times + [time])[..|times|] == times;
  }

  const MILLISECOND_NS := 1_000_000

  /** The limiter around the script: SlidingWindowLimiter.Allow. */
  class SlidingWindowLimiter {
    const limit: int
    const windowNs: int
    const key: SlidingWindowKey

    constructor (limit: int, windowNs: int, now: int)
      ensures Valid() && key.times == [] && key.last == now && fresh(key)
      ensures this.limit == limit && this.windowNs == windowNs
    {
      this.limit, this.windowNs := limit, windowNs;
      this.key := new SlidingWindowKey(limit, WindowMs(windowNs), now);
    }

    ghost predicate Valid()
      reads this, key
    {
      key.Valid(limit, WindowMs(windowNs))
    }

    /** None stands for the error when the script was not run or its answer was lost; a lost answer still counts. */
    method Allow(now: int, member: string, lapsed: bool, reply: Reply) returns (r: Option<Result>)
      requires Valid() && key.last <= now && member !in key.names && (lapsed ==> key.expireAt <= now)
      modifies key
      ensures Valid() && (r.Some? <==> reply.Answered?)
      ensures reply.NotRun? ==> key.times == old(key.times) && key.last == old(key.last)
      ensures !reply.NotRun? ==> key.times == Admit(old(key.times), limit, WindowMs(windowNs), now) && key.last == now
      ensures r.Some? ==>
                && r.value.allowed == Allowed(old(key.times), limit, WindowMs(windowNs), now)
                && r.value.current == CountIn(old(key.times), now - WindowMs(windowNs), now) + (if r.value.allowed then 1 else 0)
                && r.value.limit == limit
                && r.value.remaining == (if limit > r.value.current then limit - r.value.current else 0)
                && r.value.retryAfterNs ==
                   if r.value.allowed then 0 else RetryAfterMs(old(key.times), WindowMs(windowNs), now) * 1_000_000
    {
      if reply.NotRun? {
        return None;
      }
      var v := key.Eval(limit, WindowMs(windowNs), now, member, lapsed);
      if reply.AnswerLost? {
        return None;
      }
      var remaining := limit - v.current;
      if remaining < 0 {
        remaining := 0;
      }
      return Some(Result(v.allowed, v.current, limit, remaining, v.retryAfterMs * MILLISECOND_NS));
    }
  }

  /** Duration.Milliseconds, with a minute when that is not positive. */
  function WindowMs(windowNs: int): (ms: nat)
    ensures windowNs >= 1_000_000 ==> ms * 1_000_000 <= windowNs < (ms + 1) * 1_000_000
    ensures windowNs < 1_000_000 ==> ms == 60_000
    ensures ms > 0
  {
    if windowNs < MILLISECOND_NS then 60_000 else windowNs / MILLISECOND_NS
  }

  /**
   The configured bound, after any calls of Allow: no interval (a, b] that is no longer than the
   window the limiter was made with, or than a minute when that is below a millisecond, holds
   more than `limit` admitted requests.
   */
  lemma LimiterBound(l: SlidingWindowLimiter, a: int, b: int)
    requires l.Valid() && if l.windowNs >= 1_000_000 then (b - a) * 1_000_000 <= l.windowNs else b - a <= 60_000
    ensures |Between(l.key.times, a, b)| <= if l.limit > 0 then l.limit else 0
  {
    var window := WindowMs(l.windowNs);
    CountInCounts(l.key.times, a, b);
    if l.limit > 0 {
      RoomBoundsEveryInterval(l.key.times, l.limit, window, a);
      FewerIn(l.key.times, a, b, a + window);
    } else {
      NoRoomIsEmpty(l.key.times, l.limit, window);
    }
  }

  lemma {:induction false} FewerIn(times: seq<int>, lo: int, hi: int, hi': int)
    requires hi <= hi'
    ensures CountIn(times, lo, hi) <= CountIn(times, lo, hi')
  {
    if times != [] {
      FewerIn(times[..|times| - 1], lo, hi, hi');
    }
  }

  lemma NoRoomIsEmpty(log: seq<int>, limit: int, window: nat)
    requires limit <= 0 && window > 0 && RoomAtEach(log, limit, window)
    ensures log == []
  {
  }

  lemma WaitFitsIn64Bits(log: seq<int>, limit: int, windowNs: int64, now: int)
    requires limit > 0 && Reached(log, limit, WindowMs(windowNs), now) && !Allowed(log, limit, WindowMs(windowNs), now)
    ensures 0 < RetryAfterMs(log, WindowMs(windowNs), now) * MILLISECOND_NS <= INT64_MAX
  {
    var window := WindowMs(windowNs);
    RejectionIsFull(log, limit, window, now);
    OldestIsLeast(log, now - window);
    assert forall i | 0 <= i < |log| :: log[i] <= log[|log| - 1];
    assert window * MILLISECOND_NS <= INT64_MAX;
  }

  /**
   A client that waits for the header's seconds, with no other request admitted meanwhile, is
   allowed exactly when the rounding of its wait does not wrap around.
   */
  lemma WaitingForTheHeaderSufficesIff(log: seq<int>, limit: int, windowNs: int64, now: int)
    requires limit > 0 && Reached(log, limit, WindowMs(windowNs), now) && !Allowed(log, limit, WindowMs(windowNs), now)
    ensures var wait := RetryAfterMs(log, WindowMs(windowNs), now);
            && 0 < wait * MILLISECOND_NS <= INT64_MAX
            && (Allowed(log, limit, WindowMs(windowNs), now + HeaderSeconds(wait * MILLISECOND_NS) * 1000) <==>
                wait * MILLISECOND_NS <= LONGEST_NS)
            && (wait * MILLISECOND_NS <= LONGEST_NS ==> HeaderSeconds(wait * MILLISECOND_NS) * 1000 < wait + 1000)
  {
    var wait := RetryAfterMs(log, WindowMs(windowNs), now);
    WaitFitsIn64Bits(log, limit, windowNs, now);
    HeaderRounding(wait * MILLISECOND_NS);
    AnswerAt(log, limit, WindowMs(windowNs), now, now + HeaderSeconds(wait * MILLISECOND_NS) * 1000);
  }
}
