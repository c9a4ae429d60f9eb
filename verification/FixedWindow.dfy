/**
 The fixed-window rate limiter: INCR with an expiry set on the first increment. Times are
 in milliseconds. Redis may drop the key once its expiry is reached and has dropped it
 once the expiry lies in the past.
 */
module FixedWindow {
  import opened Wrappers

  datatype Counter = Counter(count: nat, expireAt: int)

  /** An allowed request: when it came, and when the key it counted on was created. */
  datatype Entry = Entry(start: int, at: int)

  /** What the key is at `now`, given whether Redis has dropped it. */
  function Alive(key: Option<Counter>, lapsed: bool): Option<Counter> {
    if lapsed then None else key
  }

  predicate LapseIsFair(key: Option<Counter>, now: int, lapsed: bool) {
    key.Some? ==> (lapsed ==> now >= key.value.expireAt) && (now > key.value.expireAt ==> lapsed)
  }

  /** INCR, and EXPIRE when the counter is new. */
  function Increment(key: Option<Counter>, window: nat, now: int): Counter {
    if key.Some? then Counter(key.value.count + 1, key.value.expireAt) else Counter(1, now + window)
  }

  datatype Request = Request(now: int, lapsed: bool)

  /** A run of requests on one key, collecting the allowed ones. */
  function Run(key: Option<Counter>, log: seq<Entry>, limit: int, window: nat, requests: seq<Request>): seq<Entry>
    decreases |requests|
  {
    if requests == [] then log
    else
      var r := requests[0];
      var counter := Increment(Alive(key, r.lapsed), window, r.now);
      Run(Some(counter), Admit(log, counter, limit, window, r.now), limit, window, requests[1..])
  }

  function Admit(log: seq<Entry>, counter: Counter, limit: int, window: nat, now: int): seq<Entry> {
    if counter.count > limit then log else log + [Entry(counter.expireAt - window, now)]
  }

  /** Time does not go back, and each lapse is one that Redis could do at that point. */
  predicate Possible(key: Option<Counter>, last: int, window: nat, requests: seq<Request>)
    decreases |requests|
  {
    requests == [] ||
    var r := requests[0];
    && last <= r.now
    && LapseIsFair(key, r.now, r.lapsed)
    && Possible(Some(Increment(Alive(key, r.lapsed), window, r.now)), r.now, window, requests[1..])
  }

  function CountStart(log: seq<Entry>, start: int): nat {
    if log == [] then 0
    else CountStart(log[..|log| - 1], start) + (if log[|log| - 1].start == start then 1 else 0)
  }

  /** Allowed requests of the half-open interval [a, b). */
  function CountIn(log: seq<Entry>, a: int, b: int): nat {
    if log == [] then 0
    else CountIn(log[..|log| - 1], a, b) + (if a <= log[|log| - 1].at < b then 1 else 0)
  }

  /** As the number of positions it is. */
  lemma {:induction false} CountInCounts(log: seq<Entry>, a: int, b: int)
    ensures CountIn(log, a, b) == |Between(log, a, b)|
  {
    if log != [] {
      var n := |log| - 1;
      CountInCounts(log[..n], a, b);
      assert Between(log, a, b) == Between(log[..n], a, b) + if a <= log[n].at < b then {n} else {};
    }
  }

  /** The positions of the requests allowed from `a` on and before `b`. */
  function Between(log: seq<Entry>, a: int, b: int): set<nat> {
    set i: nat | i < |log| && a <= log[i].at < b
  }

  function Cap(limit: int): nat {
    if limit > 0 then limit else 0
  }

  /** The two requests were on the same key, or one key had expired when the other was created. */
  predicate Apart(e: Entry, f: Entry, window: nat) {
    e.start == f.start || e.start + window <= f.start || f.start + window <= e.start
  }

  /** Key lifetimes do not overlap, and each admits at most the limit. */
  ghost predicate LogRight(log: seq<Entry>, limit: int, window: nat) {
    && (forall e | e in log :: e.start <= e.at <= e.start + window)
    && (forall e, f | e in log && f in log :: Apart(e, f, window))
    && (forall start :: CountStart(log, start) <= Cap(limit))
  }

  /** The counter counts the current lifetime, and every earlier one has ended. */
  ghost predicate KeyRight(key: Option<Counter>, log: seq<Entry>, limit: int, window: nat, last: int) {
    if key.None? then log == [] else key.value.count > 0 && CounterRight(key.value, log, limit, window, last)
  }

  ghost predicate CounterRight(c: Counter, log: seq<Entry>, limit: int, window: nat, last: int) {
    var start := c.expireAt - window;
    && start <= last <= c.expireAt
    && CountStart(log, start) == (if c.count <= limit then c.count else Cap(limit))
    && (forall e | e in log :: e.start == start || e.start + window <= start)
  }

  ghost predicate HasFirst(log: seq<Entry>, start: int) {
    Entry(start, start) in log
  }

  /** With a positive limit, each lifetime admits the request that created it. */
  ghost predicate FirstsAdmitted(key: Option<Counter>, log: seq<Entry>, limit: int, window: nat) {
    && (forall e | e in log :: HasFirst(log, e.start))
    && (key.Some? && limit > 0 ==> HasFirst(log, key.value.expireAt - window))
  }

  lemma {:induction false} NoneStart(log: seq<Entry>, start: int)
    requires forall e | e in log :: e.start != start
    ensures CountStart(log, start) == 0
  {
    if log != [] {
      NoneStart(log[..|log| - 1], start);
    }
  }

  lemma CountOfOneMore(log: seq<Entry>, e: Entry, start: int)
    ensures CountStart(log + [e], start) == CountStart(log, start) + if e.start == start then 1 else 0
  {
    assert (log + [e])[..|log|] == log;
  }

  lemma AppendKeepsLog(log: seq<Entry>, e: Entry, limit: int, window: nat)
    requires LogRight(log, limit, window) && CountStart(log, e.start) < limit
    requires e.start <= e.at <= e.start + window
    requires forall f | f in log :: f.start == e.start || f.start + window <= e.start
    ensures LogRight(log + [e], limit, window)
  {
    forall s
      ensures CountStart(log + [e], s) <= Cap(limit)
    {
      CountOfOneMore(log, e, s);
      assert CountStart(log, s) <= Cap(limit);
    }
  }

  lemma AppendKeepsCounter(c: Counter, log: seq<Entry>, e: Entry, limit: int, window: nat)
    requires CounterRight(c, log, limit, window, e.at) && c.count < limit && e.start == c.expireAt - window
    ensures CounterRight(c.(count := c.count + 1), log + [e], limit, window, e.at)
  {
    CountOfOneMore(log, e, e.start);
  }

  lemma CountKeepsRight(c: Counter, log: seq<Entry>, limit: int, window: nat, now: int, next: Counter, grown: seq<Entry>)
    requires LogRight(log, limit, window) && CounterRight(c, log, limit, window, now)
    requires next == c.(count := c.count + 1) && grown == Admit(log, next, limit, window, now)
    ensures LogRight(grown, limit, window) && CounterRight(next, grown, limit, window, now)
  {
    if c.count + 1 <= limit {
      AppendKeepsRight(c, log, Entry(c.expireAt - window, now), limit, window);
    } else {
      FullCountsOn(c, log, limit, window, now);
    }
  }

  lemma AppendKeepsRight(c: Counter, log: seq<Entry>, e: Entry, limit: int, window: nat)
    requires LogRight(log, limit, window) && CounterRight(c, log, limit, window, e.at)
    requires c.count < limit && e.start == c.expireAt - window
    ensures LogRight(log + [e], limit, window) && CounterRight(c.(count := c.count + 1), log + [e], limit, window, e.at)
  {
    AppendKeepsLog(log, e, limit, window);
    AppendKeepsCounter(c, log, e, limit, window);
  }

  lemma FullCountsOn(c: Counter, log: seq<Entry>, limit: int, window: nat, now: int)
    requires CounterRight(c, log, limit, window, now) && c.count >= limit
    ensures CounterRight(c.(count := c.count + 1), log, limit, window, now)
  {
  }

  lemma AdmitKeepsRight(key: Option<Counter>, log: seq<Entry>, limit: int, window: nat, last: int, now: int, lapsed: bool)
    requires window > 0 && last <= now && LapseIsFair(key, now, lapsed)
    requires LogRight(log, limit, window) && KeyRight(key, log, limit, window, last)
    ensures var c := Increment(Alive(key, lapsed), window, now);
            var log' := Admit(log, c, limit, window, now);
            LogRight(log', limit, window) && KeyRight(Some(c), log', limit, window, now)
  {
    var c := Increment(Alive(key, lapsed), window, now);
    var log' := Admit(log, c, limit, window, now);
    if Alive(key, lapsed).None? {
      NoneStart(log, now);
      CountKeepsRight(Counter(0, now + window), log, limit, window, now, c, log');
    } else {
      CountKeepsRight(key.value, log, limit, window, now, c, log');
    }
  }

  lemma AdmitKeepsFirsts(key: Option<Counter>, log: seq<Entry>, limit: int, window: nat, now: int, lapsed: bool)
    requires FirstsAdmitted(key, log, limit, window)
    ensures var c := Increment(Alive(key, lapsed), window, now);
            FirstsAdmitted(Some(c), Admit(log, c, limit, window, now), limit, window)
  {
    var c := Increment(Alive(key, lapsed), window, now);
    var start := c.expireAt - window;
    var log' := Admit(log, c, limit, window, now);
    if log' != log {
      assert forall s | HasFirst(log, s) :: HasFirst(log', s);
      assert HasFirst(log', start);
    }
  }

  lemma {:induction false} RunKeepsRight(
      key: Option<Counter>, log: seq<Entry>, limit: int, window: nat, last: int, requests: seq<Request>)
    requires window > 0 && Possible(key, last, window, requests)
    requires LogRight(log, limit, window) && KeyRight(key, log, limit, window, last)
    requires FirstsAdmitted(key, log, limit, window)
    ensures LogRight(Run(key, log, limit, window, requests), limit, window)
    ensures FirstsAdmitted(None, Run(key, log, limit, window, requests), limit, window)
    decreases |requests|
  {
    if requests != [] {
      var r := requests[0];
      var c := Increment(Alive(key, r.lapsed), window, r.now);
      AdmitKeepsRight(key, log, limit, window, last, r.now, r.lapsed);
      AdmitKeepsFirsts(key, log, limit, window, r.now, r.lapsed);
      RunKeepsRight(Some(c), Admit(log, c, limit, window, r.now), limit, window, r.now, requests[1..]);
    }
  }

  /** Allowed requests of [a, b) on the key created at `start`. */
  function CountBoth(log: seq<Entry>, a: int, b: int, start: int): nat {
    if log == [] then 0
    else
      var e := log[|log| - 1];
      CountBoth(log[..|log| - 1], a, b, start) + (if a <= e.at < b && e.start == start then 1 else 0)
  }

  lemma {:induction false} SplitByStart(log: seq<Entry>, a: int, b: int, s1: int, s2: int)
    requires forall e | e in log && a <= e.at < b :: e.start == s1 || e.start == s2
    ensures CountIn(log, a, b) <= CountBoth(log, a, b, s1) + CountBoth(log, a, b, s2)
    ensures s1 == s2 ==> CountIn(log, a, b) == CountBoth(log, a, b, s1)
  {
    if log != [] {
      SplitByStart(log[..|log| - 1], a, b, s1, s2);
    }
  }

  lemma {:induction false} OneOutside(log: seq<Entry>, a: int, b: int, start: int)
    ensures CountBoth(log, a, b, start) <= CountStart(log, start)
    ensures start < a && HasFirst(log, start) ==> CountBoth(log, a, b, start) < CountStart(log, start)
  {
    if log != [] {
      var n := |log| - 1;
      OneOutside(log[..n], a, b, start);
      assert log == log[..n] + [log[n]];
    }
  }

  /** An interval one window long meets at most two key lifetimes. */
  lemma TwoLifetimes(log: seq<Entry>, limit: int, window: nat, a: int) returns (s1: int, s2: int)
    requires window > 0 && LogRight(log, limit, window) && FirstsAdmitted(None, log, limit, window)
    ensures s1 <= s2
    ensures forall e | e in log && a <= e.at < a + window :: e.start == s1 || e.start == s2
    ensures s1 != s2 ==> HasFirst(log, s1) && s1 < a
  {
    s1, s2 := 0, 0;
    if e :| e in log && a <= e.at < a + window {
      s1, s2 := e.start, e.start;
      if f :| f in log && a <= f.at < a + window && f.start != e.start {
        s1, s2 := if f.start < e.start then f.start else e.start, if f.start < e.start then e.start else f.start;
      }
    }
  }

  /** Each key lifetime admits at most `limit` requests. */
  lemma LifetimeBound(limit: int, window: nat, requests: seq<Request>, start: int)
    requires window > 0 && requests != [] && Possible(None, requests[0].now, window, requests)
    ensures CountStart(Run(None, [], limit, window, requests), start) <= Cap(limit)
  {
    RunKeepsRight(None, [], limit, window, requests[0].now, requests);
  }

  /**
   Over every run, any half-open interval one window long admits less than twice the limit:
   of the two lifetimes it can meet, the first was created by a request before the interval.
   */
  lemma WindowBound(limit: int, window: nat, requests: seq<Request>, a: int)
    requires window > 0 && requests != [] && Possible(None, requests[0].now, window, requests)
    ensures CountIn(Run(None, [], limit, window, requests), a, a + window) <= if limit > 0 then 2 * limit - 1 else 0
  {
    RunKeepsRight(None, [], limit, window, requests[0].now, requests);
    LogBound(Run(None, [], limit, window, requests), limit, window, a);
  }

  lemma LogBound(log: seq<Entry>, limit: int, window: nat, a: int)
    requires window > 0 && LogRight(log, limit, window) && FirstsAdmitted(None, log, limit, window)
    ensures CountIn(log, a, a + window) <= if limit > 0 then 2 * limit - 1 else 0
  {
    var s1, s2 := TwoLifetimes(log, limit, window, a);
    SplitByStart(log, a, a + window, s1, s2);
    OneOutside(log, a, a + window, s1);
    OneOutside(log, a, a + window, s2);
    assert CountStart(log, s1) <= Cap(limit) && CountStart(log, s2) <= Cap(limit);
  }

  /** `n` requests at one time, none of which finds the key lapsed. */
  function Burst(at: int, n: nat): seq<Request> {
    if n == 0 then [] else [Request(at, false)] + Burst(at, n - 1)
  }

  function Copies(e: Entry, n: nat): seq<Entry> {
    if n == 0 then [] else [e] + Copies(e, n - 1)
  }

  lemma PossibleEarlier(key: Option<Counter>, last: int, later: int, window: nat, requests: seq<Request>)
    requires last <= later && Possible(key, later, window, requests)
    ensures Possible(key, last, window, requests)
  {
  }

  /** A burst within the limit is admitted as a whole, on the same key. */
  lemma {:induction false} BurstIsAdmitted(
      c: Counter, log: seq<Entry>, limit: int, window: nat, last: int, at: int, n: nat, rest: seq<Request>)
    requires c.count + n <= limit && last <= at <= c.expireAt
    requires Possible(Some(Counter(c.count + n, c.expireAt)), at, window, rest)
    ensures Possible(Some(c), last, window, Burst(at, n) + rest)
    ensures Run(Some(c), log, limit, window, Burst(at, n) + rest) ==
            Run(Some(Counter(c.count + n, c.expireAt)), log + Copies(Entry(c.expireAt - window, at), n), limit, window, rest)
    decreases n
  {
    var requests := Burst(at, n) + rest;
    var e := Entry(c.expireAt - window, at);
    if n == 0 {
      assert requests == rest && log + Copies(e, 0) == log && Counter(c.count, c.expireAt) == c;
      PossibleEarlier(Some(c), last, at, window, rest);
    } else {
      var c' := Counter(c.count + 1, c.expireAt);
      assert requests[0] == Request(at, false) && requests[1..] == Burst(at, n - 1) + rest;
      BurstIsAdmitted(c', log + [e], limit, window, at, at, n - 1, rest);
      assert log + [e] + Copies(e, n - 1) == log + Copies(e, n);
    }
  }

  lemma {:induction false} CountCopies(log: seq<Entry>, e: Entry, n: nat, a: int, b: int)
    ensures CountIn(log + Copies(e, n), a, b) == CountIn(log, a, b) + if a <= e.at < b then n else 0
    decreases n
  {
    if n == 0 {
      assert log + Copies(e, 0) == log;
    } else {
      assert log + Copies(e, n) == log + [e] + Copies(e, n - 1);
      CountCopies(log + [e], e, n - 1, a, b);
      assert (log + [e])[..|log|] == log;
    }
  }

  /** The second lifetime of the run below: a full limit at the moment the key lapses. */
  lemma LapseThenBurst(limit: int, window: nat, last: int, log: seq<Entry>, c: Counter)
    requires limit > 0 && window > 0 && c.expireAt == window && last <= window
    ensures var requests := [Request(window, true)] + Burst(window, limit - 1);
            && Possible(Some(c), last, window, requests)
            && Run(Some(c), log, limit, window, requests) == log + [Entry(window, window)] + Copies(Entry(window, window), limit - 1)
  {
    var e, renewed := Entry(window, window), Counter(1, 2 * window);
    var requests := [Request(window, true)] + Burst(window, limit - 1);
    assert requests[0] == Request(window, true) && requests[1..] == Burst(window, limit - 1);
    assert Burst(window, limit - 1) + [] == Burst(window, limit - 1);
    BurstIsAdmitted(renewed, log + [e], limit, window, window, window, limit - 1, []);
  }

  /**
   The bound is met for every limit and window: one request at 0, the rest of the limit at 1,
   and the whole limit when the key lapses.
   */
  lemma WindowBoundIsTight(limit: int, window: nat) returns (requests: seq<Request>)
    requires limit > 0 && window > 0
    ensures requests != [] && Possible(None, requests[0].now, window, requests)
    ensures CountIn(Run(None, [], limit, window, requests), 1, 1 + window) == 2 * limit - 1
  {
    var second := [Request(window, true)] + Burst(window, limit - 1);
    var rest := Burst(1, limit - 1) + second;
    requests := [Request(0, false)] + rest;
    assert requests[1..] == rest;
    var e0, e1, e2 := Entry(0, 0), Entry(0, 1), Entry(window, window);
    var full := Counter(limit, window);
    var first := [e0] + Copies(e1, limit - 1);
    LapseThenBurst(limit, window, 1, first, full);
    BurstIsAdmitted(Counter(1, window), [e0], limit, window, 0, 1, limit - 1, second);
    assert [] + [e0] == [e0];
    assert Run(None, [], limit, window, requests) == first + [e2] + Copies(e2, limit - 1);
    CountCopies([e0], e1, limit - 1, 1, 1 + window);
    CountCopies(first + [e2], e2, limit - 1, 1, 1 + window);
    assert (first + [e2])[..|first|] == first && [e0][..0] == [];
  }

  // ----- the key in Redis -----

  datatype Result = Result(allowed: bool, current: int, limit: int, remaining: int, retryAfterSec: int)

  const SECOND_NS := 1_000_000_000

  /** int(window.Seconds()), with a minute when that is not positive. */
  function WindowSec(windowNs: int): (s: nat)
    ensures windowNs >= 1_000_000_000 ==> s * 1_000_000_000 <= windowNs < (s + 1) * 1_000_000_000
    ensures windowNs < 1_000_000_000 ==> s == 60
    ensures s > 0
  {
    if windowNs < SECOND_NS then 60 else windowNs / SECOND_NS
  }

  class Limiter {
    const limit: int
    const windowNs: int
    var key: Option<Counter>
    ghost var log: seq<Entry>
    ghost var last: int

    ghost predicate Valid()
      reads this
    {
      var window := WindowSec(windowNs) * 1000;
      LogRight(log, limit, window) && KeyRight(key, log, limit, window, last) && FirstsAdmitted(key, log, limit, window)
    }

    constructor (limit: int, windowNs: int, now: int)
      ensures Valid() && log == [] && key == None && last == now && this.limit == limit && this.windowNs == windowNs
    {
      this.limit, this.windowNs := limit, windowNs;
      key, log, last := None, [], now;
    }

    /** None stands for the error when the script was not run or its answer was lost; a lost answer still counts. */
    method Allow(now: int, lapsed: bool, reply: Reply) returns (r: Option<Result>)
      requires Valid() && last <= now && LapseIsFair(key, now, lapsed)
      modifies this
      ensures Valid() && (r.Some? <==> reply.Answered?)
      ensures reply.NotRun? ==> key == old(key) && log == old(log) && last == old(last)
      ensures !reply.NotRun? ==>
                && last == now && key == Some(Increment(Alive(old(key), lapsed), WindowSec(windowNs) * 1000, now))
                && log == Admit(old(log), key.value, limit, WindowSec(windowNs) * 1000, now)
      ensures r.Some? ==>
                && (r.value.allowed <==> log != old(log))
                && r.value.current == key.value.count && r.value.limit == limit
                && r.value.remaining == (if limit > r.value.current then limit - r.value.current else 0)
                && r.value.retryAfterSec == if r.value.allowed then 0 else WindowSec(windowNs)
    {
      if reply.NotRun? {
        return None;
      }
      var window := WindowSec(windowNs) * 1000;
      AdmitKeepsRight(key, log, limit, window, last, now, lapsed);
      AdmitKeepsFirsts(key, log, limit, window, now, lapsed);
      ghost var counter := Increment(Alive(key, lapsed), window, now);
      log, last := Admit(log, counter, limit, window, now), now;
      var current := Incr(window, now, lapsed);
      if reply.AnswerLost? {
        return None;
      }
      var allowed := current <= limit;
      var remaining := limit - current;
      if remaining < 0 {
        remaining := 0;
      }
      return Some(Result(allowed, current, limit, remaining, if allowed then 0 else WindowSec(windowNs)));
    }

    /** INCR, then EXPIRE when the counter is new. */
    method Incr(window: nat, now: int, lapsed: bool) returns (current: nat)
      requires key.Some? ==> key.value.count > 0
      modifies this`key
      ensures key == Some(Increment(Alive(old(key), lapsed), window, now)) && current == key.value.count
    {
      if lapsed || key.None? {
        key := Some(Counter(0, 0));
      }
      current := key.value.count + 1;
      key := Some(key.value.(count := current));
      if current == 1 {
        key := Some(key.value.(expireAt := now + window));
      }
    }
  }

  /**
   The configured bound, after any calls of Allow: an interval [a, b) of milliseconds that is no
   longer than the whole seconds of the limiter's window, or than a minute when there are none,
   holds less than twice `limit` admitted requests.
   */
  lemma LimiterBound(l: Limiter, seconds: nat, a: int, b: int)
    requires l.Valid() && b - a <= seconds * 1000
    requires if l.windowNs >= 1_000_000_000 then seconds * 1_000_000_000 <= l.windowNs else seconds <= 60
    ensures |Between(l.log, a, b)| <= if l.limit > 0 then 2 * l.limit - 1 else 0
  {
    var window := WindowSec(l.windowNs) * 1000;
    LogBound(l.log, l.limit, window, a);
    CountInCounts(l.log, a, b);
    FewerIn(l.log, a, b, a + window);
  }

  lemma {:induction false} FewerIn(log: seq<Entry>, a: int, b: int, b': int)
    requires b <= b'
    ensures CountIn(log, a, b) <= CountIn(log, a, b')
  {
    if log != [] {
      FewerIn(log[..|log| - 1], a, b, b');
    }
  }
}
