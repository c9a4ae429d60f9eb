/**
 The Redis lock: one key holding the value of its owner with an expiry, taken by SET NX,
 kept by compare-and-expire and given back by compare-and-delete. Times are nanoseconds.
 */
module RedisLock {
  import opened Wrappers

  datatype Held = Held(value: string, expireAt: int)

  /** What GET sees: Redis has dropped a key whose expiry lies in the past. */
  function Get(entry: Option<Held>, now: int): Option<string> {
    if entry.Some? && now <= entry.value.expireAt then Some(entry.value.value) else None
  }

  function SetNX(entry: Option<Held>, value: string, ttl: nat, now: int): Option<Held> {
    if Get(entry, now).None? then Some(Held(value, now + ttl)) else entry
  }

  function CompareAndExpire(entry: Option<Held>, value: string, ttl: nat, now: int): Option<Held> {
    if Get(entry, now) == Some(value) then Some(Held(value, now + ttl)) else entry
  }

  function CompareAndDelete(entry: Option<Held>, value: string, now: int): Option<Held> {
    if Get(entry, now) == Some(value) then None else entry
  }

  // ----- runs -----

  datatype Move =
    | Wait(duration: nat)
    | TryLock(value: string, ttl: nat)
    | Renew(value: string, ttl: nat)
    | Unlock(value: string)

  /** `leases` records until when each lock value was last promised the lock, and forgets released ones. */
  datatype World = World(now: int, entry: Option<Held>, leases: map<string, int>)

  function Apply(w: World, m: Move): World {
    match m
    case Wait(d) => w.(now := w.now + d)
    case TryLock(v, ttl) =>
      if Get(w.entry, w.now).None?
      then w.(entry := SetNX(w.entry, v, ttl, w.now), leases := w.leases[v := w.now + ttl]) else w
    case Renew(v, ttl) =>
      if Get(w.entry, w.now) == Some(v)
      then w.(entry := CompareAndExpire(w.entry, v, ttl, w.now), leases := w.leases[v := w.now + ttl]) else w
    case Unlock(v) =>
      if Get(w.entry, w.now) == Some(v)
      then w.(entry := CompareAndDelete(w.entry, v, w.now), leases := w.leases - {v}) else w
  }

  function After(w: World, moves: seq<Move>): World
    decreases |moves|
  {
    if moves == [] then w else After(Apply(w, moves[0]), moves[1..])
  }

  /** The value has a lease that has neither run out nor been released. */
  predicate Live(w: World, value: string) {
    value in w.leases && w.now <= w.leases[value]
  }

  ghost predicate Inv(w: World) {
    forall v :: Live(w, v) <==> (Get(w.entry, w.now) == Some(v) && v in w.leases && w.leases[v] == w.entry.value.expireAt)
  }

  lemma ApplyKeepsInv(w: World, m: Move)
    requires Inv(w) && (Get(w.entry, w.now).Some? ==> Live(w, Get(w.entry, w.now).value))
    ensures Inv(Apply(w, m))
    ensures var w' := Apply(w, m); Get(w'.entry, w'.now).Some? ==> Live(w', Get(w'.entry, w'.now).value)
  {
    var w' := Apply(w, m);
    forall v
      ensures Live(w', v) <==> (Get(w'.entry, w'.now) == Some(v) && v in w'.leases && w'.leases[v] == w'.entry.value.expireAt)
    {
      assert Live(w, v) <==> (Get(w.entry, w.now) == Some(v) && v in w.leases && w.leases[v] == w.entry.value.expireAt);
    }
  }

  lemma {:induction false} RunKeepsInv(w: World, moves: seq<Move>)
    requires Inv(w) && (Get(w.entry, w.now).Some? ==> Live(w, Get(w.entry, w.now).value))
    ensures var w' := After(w, moves); Inv(w') && (Get(w'.entry, w'.now).Some? ==> Live(w', Get(w'.entry, w'.now).value))
    decreases |moves|
  {
    if moves != [] {
      ApplyKeepsInv(w, moves[0]);
      RunKeepsInv(Apply(w, moves[0]), moves[1..]);
    }
  }

  /**
   Over all runs of lock, renew, unlock and waiting, the values with an unexpired, unreleased
   lease are exactly the one stored at the key: never two at once.
   */
  lemma LeaseExclusion(start: int, moves: seq<Move>, v: string, u: string)
    ensures var w := After(World(start, None, map[]), moves);
            && (Live(w, v) <==> Get(w.entry, w.now) == Some(v))
            && (Live(w, v) && Live(w, u) ==> v == u)
  {
    RunKeepsInv(World(start, None, map[]), moves);
  }

  /**
   What each command does: a free lock is taken for its whole time, its holder's renewal gives it
   another one, its holder's unlock frees it at once, and nothing anyone else does changes it.
   */
  lemma MovesTakeEffect(w: World, value: string, ttl: nat)
    ensures Get(w.entry, w.now).None? ==>
              Get(Apply(w, TryLock(value, ttl)).entry, w.now + ttl) == Some(value) && Live(Apply(w, TryLock(value, ttl)), value)
    ensures Get(w.entry, w.now) == Some(value) ==>
              Get(Apply(w, Renew(value, ttl)).entry, w.now + ttl) == Some(value) && Live(Apply(w, Renew(value, ttl)), value)
    ensures Get(w.entry, w.now) == Some(value) ==>
              Get(Apply(w, Unlock(value)).entry, w.now).None? && !Live(Apply(w, Unlock(value)), value)
    ensures Get(w.entry, w.now).Some? ==> Apply(w, TryLock(value, ttl)) == w
    ensures Get(w.entry, w.now) != Some(value) ==> Apply(w, Renew(value, ttl)) == w && Apply(w, Unlock(value)) == w
  {
  }

  // ----- renewal -----

  const SECOND := 1_000_000_000
  const MIN_EXPIRATION := 5 * SECOND

  /** lockExpirationSeconds: whole seconds, rounded up. */
  function LockExpirationSeconds(expiration: int): (s: nat)
    ensures s >= 5
  {
    var e := if expiration < MIN_EXPIRATION then MIN_EXPIRATION else expiration;
    if e % SECOND != 0 then e / SECOND + 1 else e / SECOND
  }

  lemma RenewedTtlIsNeverShorter(expiration: nat)
    requires expiration >= 5_000_000_000
    ensures expiration <= LockExpirationSeconds(expiration) * 1_000_000_000 < expiration + 1_000_000_000
  {
  }

  /** Time between two ticks of autoRenew. */
  function RenewPeriod(expiration: nat): nat {
    expiration * 2 / 3
  }

  /**
   A run in which `value`, acquired at `t0`, has been renewed `k` times, never unlocks, and
   makes each next renewal at or after its tick, less than a third of the expiration late.
   Anyone else may do anything.
   */
  predicate Punctual(w: World, value: string, t0: int, expiration: nat, k: nat, moves: seq<Move>)
    decreases |moves|
  {
    && 3 * (w.now - t0 - (k + 1) * RenewPeriod(expiration)) < expiration
    && (moves == [] ||
        match moves[0]
        case Renew(v, ttl) =>
          if v == value then
            && ttl == LockExpirationSeconds(expiration) * SECOND
            && w.now >= t0 + (k + 1) * RenewPeriod(expiration)
            && Punctual(Apply(w, moves[0]), value, t0, expiration, k + 1, moves[1..])
          else Punctual(Apply(w, moves[0]), value, t0, expiration, k, moves[1..])
        case Unlock(v) => v != value && Punctual(Apply(w, moves[0]), value, t0, expiration, k, moves[1..])
        case _ => Punctual(Apply(w, moves[0]), value, t0, expiration, k, moves[1..]))
  }

  /** The stored expiry is the one of a renewal made on time. */
  predicate OnSchedule(w: World, value: string, t0: int, expiration: nat, k: nat) {
    && w.entry.Some? && w.entry.value.value == value
    && w.entry.value.expireAt >= t0 + k * RenewPeriod(expiration) + expiration
  }

  lemma ScheduleIsLive(w: World, value: string, t0: int, expiration: nat, k: nat)
    requires OnSchedule(w, value, t0, expiration, k)
    requires 3 * (w.now - t0 - (k + 1) * RenewPeriod(expiration)) < expiration
    ensures Get(w.entry, w.now) == Some(value)
  {
    var p := RenewPeriod(expiration);
    assert (k + 1) * p == k * p + p;
    assert 3 * p <= 2 * expiration;
  }

  /** For any number of punctual renewals the lease never lapses before it is unlocked. */
  lemma {:induction false} LeaseNeverLapses(w: World, value: string, t0: int, expiration: nat, k: nat, moves: seq<Move>)
    requires expiration >= MIN_EXPIRATION && OnSchedule(w, value, t0, expiration, k)
    requires Punctual(w, value, t0, expiration, k, moves)
    ensures forall i | 0 <= i <= |moves| ::
              Get(After(w, moves[..i]).entry, After(w, moves[..i]).now) == Some(value)
    decreases |moves|
  {
    ScheduleIsLive(w, value, t0, expiration, k);
    if moves != [] {
      var m := moves[0];
      var w' := Apply(w, m);
      if m == Renew(value, LockExpirationSeconds(expiration) * SECOND) {
        RenewedTtlIsNeverShorter(expiration);
        LeaseNeverLapses(w', value, t0, expiration, k + 1, moves[1..]);
      } else {
        LeaseNeverLapses(w', value, t0, expiration, k, moves[1..]);
      }
      forall i | 0 <= i <= |moves|
        ensures Get(After(w, moves[..i]).entry, After(w, moves[..i]).now) == Some(value)
      {
        if i > 0 {
          assert moves[..i][0] == m && moves[..i][1..] == moves[1..][..i - 1];
        }
      }
    }
  }

  /** Taking a free lock starts such a schedule, if a renewer runs that keeps to it. */
  lemma AcquiringStartsTheSchedule(w: World, value: string, expiration: nat)
    requires expiration >= MIN_EXPIRATION && Get(w.entry, w.now).None?
    ensures var w' := Apply(w, TryLock(value, expiration));
            OnSchedule(w', value, w.now, expiration, 0) && Punctual(w', value, w.now, expiration, 0, [])
  {
  }

  /** A third of the expiration is the exact slack: one renewal later than that can find the lock gone. */
  lemma LateRenewalCanLoseTheLock(value: string, other: string, expiration: nat)
    requires expiration >= MIN_EXPIRATION && value != other
    ensures var moves := [TryLock(value, expiration), Wait(expiration + 1), TryLock(other, expiration),
                          Renew(value, LockExpirationSeconds(expiration) * SECOND)];
            var w := After(World(0, None, map[]), moves);
            Get(w.entry, w.now) == Some(other)
            && 3 * (expiration + 1 - RenewPeriod(expiration)) < expiration + 6
  {
    var m0, m1, m2 := TryLock(value, expiration), Wait(expiration + 1), TryLock(other, expiration);
    var m3 := Renew(value, LockExpirationSeconds(expiration) * SECOND);
    var w0 := World(0, None, map[]);
    var w2 := Apply(Apply(w0, m0), m1);
    assert [m0, m1, m2, m3][1..] == [m1, m2, m3] && [m1, m2, m3][1..] == [m2, m3] && [m2, m3][1..] == [m3] && [m3][1..] == [];
    assert After(w0, [m0, m1, m2, m3]) == After(w2, [m2, m3]) == After(Apply(w2, m2), [m3]) == Apply(Apply(w2, m2), m3);
  }

  // ----- whether a renewer runs -----

  /** What a lock object remembers, and whether its renewing goroutine is there. */
  datatype Renewal = Renewal(started: bool, running: bool)

  /** A renewer stops by itself when a renewal fails, and when the context ends. */
  datatype Event = Acquired | Released | RenewalFailed | ContextEnded

  function Step(r: Renewal, e: Event): Renewal {
    match e
    case Acquired => if r.started then r else Renewal(true, true)
    case Released => Renewal(false, false)
    case RenewalFailed => r.(running := false)
    case ContextEnded => r.(running := false)
  }

  const FRESH := Renewal(false, false)

  function RenewalAfter(events: seq<Event>): Renewal {
    if events == [] then FRESH else Step(RenewalAfter(events[..|events| - 1]), events[|events| - 1])
  }

  predicate Stops(e: Event) {
    e.RenewalFailed? || e.ContextEnded?
  }

  /** The lock was acquired at position `i` and has not been released since. */
  predicate HeldFrom(events: seq<Event>, i: nat) {
    i < |events| && events[i].Acquired? && forall k | i < k < |events| :: !events[k].Released?
  }

  /** The renewer stopped by itself, and the lock has not been released since. */
  ghost predicate StoppedSinceRelease(events: seq<Event>) {
    exists i: nat, j: nat :: HeldFrom(events, i) && i < j < |events| && Stops(events[j])
  }

  lemma HeldFromPrefix(events: seq<Event>, i: nat)
    requires events != []
    ensures var n := |events| - 1;
            HeldFrom(events, i) <==> if i < n then HeldFrom(events[..n], i) && !events[n].Released? else i == n && events[n].Acquired?
  {
    var n := |events| - 1;
    if i < n && HeldFrom(events[..n], i) && !events[n].Released? {
      forall k | i < k < |events|
        ensures !events[k].Released?
      {
        assert k < n ==> events[k] == events[..n][k];
      }
    }
  }

  lemma {:induction false} RenewalHistory(events: seq<Event>)
    ensures RenewalAfter(events).started <==> exists i: nat :: HeldFrom(events, i)
    ensures RenewalAfter(events).running <==> RenewalAfter(events).started && !StoppedSinceRelease(events)
  {
    if events != [] {
      var n := |events| - 1;
      var before, last := events[..n], events[n];
      RenewalHistory(before);
      forall i: nat
        ensures HeldFrom(events, i) <==> if i < n then HeldFrom(before, i) && !last.Released? else i == n && last.Acquired?
      {
        HeldFromPrefix(events, i);
      }
      StoppedPrefix(events);
      if i: nat :| HeldFrom(before, i) && !last.Released? {
        assert HeldFrom(events, i);
      }
      assert HeldFrom(events, n) <==> last.Acquired?;
    }
  }

  lemma StoppedPrefix(events: seq<Event>)
    requires events != []
    ensures var n := |events| - 1;
            StoppedSinceRelease(events) <==>
            !events[n].Released? && (StoppedSinceRelease(events[..n]) || (Stops(events[n]) && exists i: nat :: HeldFrom(events[..n], i)))
  {
    var n := |events| - 1;
    var before := events[..n];
    if i: nat, j: nat :| HeldFrom(before, i) && i < j < n && Stops(before[j]) && !events[n].Released? {
      HeldFromPrefix(events, i);
      assert HeldFrom(events, i) && Stops(events[j]);
    }
    if i: nat :| HeldFrom(before, i) && Stops(events[n]) {
      HeldFromPrefix(events, i);
      assert HeldFrom(events, i);
    }
    if i: nat, j: nat :| HeldFrom(events, i) && i < j < |events| && Stops(events[j]) {
      HeldFromPrefix(events, i);
      assert j < n ==> Stops(before[j]);
    }
  }

  /**
   Whatever happened to a lock object before, acquiring leaves it with a renewer exactly when no
   renewer of it has stopped by itself since it was last released.
   */
  lemma AcquiringStartsRenewalIff(events: seq<Event>)
    ensures RenewalAfter(events + [Acquired]).running <==> !StoppedSinceRelease(events)
  {
    assert (events + [Acquired])[..|events|] == events;
    RenewalHistory(events);
  }

  // ----- one lock object among others -----

  /** The key, the history of one lock object, and when its renewer started and how often it has renewed since. */
  datatype Keeper = Keeper(world: World, events: seq<Event>, since: int, renewals: nat)

  /** Calls of the object, the ticks of its renewer, and everything that time and other objects do. */
  datatype Act = Others(m: Move) | Acquire(reply: Reply) | Release(reply: Reply) | Tick(reply: Reply) | EndContext

  function RenewalOf(s: Keeper): Renewal {
    RenewalAfter(s.events)
  }

  function RenewedTtl(expiration: nat): nat {
    LockExpirationSeconds(expiration) * SECOND
  }

  /** Lock values are unique; a renewer ticks no earlier than its period says. */
  predicate CanAct(s: Keeper, value: string, expiration: nat, a: Act) {
    match a
    case Others(m) => m.Wait? || m.value != value
    case Tick(_) => RenewalOf(s).running && s.world.now >= s.since + (s.renewals + 1) * RenewPeriod(expiration)
    case _ => true
  }

  function Run(w: World, m: Move, reply: Reply): World {
    if reply.NotRun? then w else Apply(w, m)
  }

  function Happened(s: Keeper, e: Event): Keeper {
    s.(events := s.events + [e])
  }

  function Perform(s: Keeper, value: string, expiration: nat, a: Act): Keeper {
    match a
    case Others(m) => s.(world := Apply(s.world, m))
    case Acquire(reply) =>
      var next := s.(world := Run(s.world, TryLock(value, expiration), reply));
      if !reply.Answered? || Get(s.world.entry, s.world.now).Some? then next
      else if RenewalOf(s).started then Happened(next, Acquired)
      else Happened(next.(since := s.world.now, renewals := 0), Acquired)
    case Release(reply) => Happened(s.(world := Run(s.world, Unlock(value), reply)), Released)
    case Tick(reply) =>
      var next := s.(world := Run(s.world, Renew(value, RenewedTtl(expiration)), reply));
      if reply.Answered? && Get(s.world.entry, s.world.now) == Some(value) then next.(renewals := s.renewals + 1)
      else Happened(next, RenewalFailed)
    case EndContext => Happened(s, ContextEnded)
  }

  /** A running renewer is less than a third of the expiration late. */
  predicate OnTime(s: Keeper, expiration: nat) {
    RenewalOf(s).running ==> 3 * (s.world.now - s.since - (s.renewals + 1) * RenewPeriod(expiration)) < expiration
  }

  predicate OnTimeRun(s: Keeper, value: string, expiration: nat, acts: seq<Act>)
    decreases |acts|
  {
    OnTime(s, expiration) &&
    (acts == [] ||
     (CanAct(s, value, expiration, acts[0]) && OnTimeRun(Perform(s, value, expiration, acts[0]), value, expiration, acts[1..])))
  }

  function Finally(s: Keeper, value: string, expiration: nat, acts: seq<Act>): Keeper
    decreases |acts|
  {
    if acts == [] then s else Finally(Perform(s, value, expiration, acts[0]), value, expiration, acts[1..])
  }

  function Fresh(now: int): Keeper {
    Keeper(World(now, None, map[]), [], now, 0)
  }

  /** What a renewer that is there finds: the key holds the lock's value, and not for less long than the schedule says. */
  predicate RenewerHolds(s: Keeper, value: string, expiration: nat) {
    RenewalOf(s).running ==> OnSchedule(s.world, value, s.since, expiration, s.renewals)
  }

  lemma RenewalStep(events: seq<Event>, e: Event)
    ensures RenewalAfter(events + [e]) == Step(RenewalAfter(events), e)
  {
    assert (events + [e])[..|events|] == events;
  }

  lemma OthersKeepTheLock(s: Keeper, value: string, expiration: nat, m: Move)
    requires RenewerHolds(s, value, expiration) && OnTime(s, expiration) && CanAct(s, value, expiration, Others(m))
    ensures RenewerHolds(Perform(s, value, expiration, Others(m)), value, expiration)
  {
    if RenewalOf(s).running {
      ScheduleIsLive(s.world, value, s.since, expiration, s.renewals);
    }
  }

  lemma AcquireKeepsTheLock(s: Keeper, value: string, expiration: nat, reply: Reply)
    requires RenewerHolds(s, value, expiration) && OnTime(s, expiration)
    ensures RenewerHolds(Perform(s, value, expiration, Acquire(reply)), value, expiration)
  {
    RenewalStep(s.events, Acquired);
    if RenewalOf(s).running {
      ScheduleIsLive(s.world, value, s.since, expiration, s.renewals);
    }
  }

  lemma TickKeepsTheLock(s: Keeper, value: string, expiration: nat, reply: Reply)
    requires expiration >= MIN_EXPIRATION
    requires RenewerHolds(s, value, expiration) && OnTime(s, expiration) && CanAct(s, value, expiration, Tick(reply))
    ensures RenewerHolds(Perform(s, value, expiration, Tick(reply)), value, expiration)
  {
    RenewalStep(s.events, RenewalFailed);
    RenewedTtlIsNeverShorter(expiration);
    ScheduleIsLive(s.world, value, s.since, expiration, s.renewals);
  }

  lemma ActKeepsTheLock(s: Keeper, value: string, expiration: nat, a: Act)
    requires expiration >= MIN_EXPIRATION
    requires RenewerHolds(s, value, expiration) && OnTime(s, expiration) && CanAct(s, value, expiration, a)
    ensures RenewerHolds(Perform(s, value, expiration, a), value, expiration)
  {
    match a
    case Others(m) => OthersKeepTheLock(s, value, expiration, m);
    case Acquire(reply) => AcquireKeepsTheLock(s, value, expiration, reply);
    case Release(_) => RenewalStep(s.events, Released);
    case Tick(reply) => TickKeepsTheLock(s, value, expiration, reply);
    case EndContext => RenewalStep(s.events, ContextEnded);
  }

  /**
   Over any run in which a renewer that is there ticks on time, with failing and lost commands and
   any doings of other objects: while the renewer is there, the lock is held.
   */
  lemma {:induction false} RunningRenewerHoldsTheLock(s: Keeper, value: string, expiration: nat, acts: seq<Act>)
    requires expiration >= MIN_EXPIRATION && RenewerHolds(s, value, expiration) && OnTimeRun(s, value, expiration, acts)
    ensures var d := Finally(s, value, expiration, acts);
            RenewalOf(d).running ==> Get(d.world.entry, d.world.now) == Some(value)
    decreases |acts|
  {
    if acts == [] {
      if RenewalOf(s).running {
        ScheduleIsLive(s.world, value, s.since, expiration, s.renewals);
      }
    } else {
      ActKeepsTheLock(s, value, expiration, acts[0]);
      RunningRenewerHoldsTheLock(Perform(s, value, expiration, acts[0]), value, expiration, acts[1..]);
    }
  }

  /** From the start, with what the next tick does, and when an acquisition that succeeds leaves a renewer. */
  lemma LockIsHeldWhileRenewed(now: int, value: string, expiration: nat, acts: seq<Act>)
    requires expiration >= MIN_EXPIRATION && OnTimeRun(Fresh(now), value, expiration, acts)
    ensures var s := Finally(Fresh(now), value, expiration, acts);
            && (RenewalOf(s).running ==>
                  var d := Perform(s, value, expiration, Tick(Answered));
                  && Get(s.world.entry, s.world.now) == Some(value)
                  && RenewalOf(d).running && Get(d.world.entry, s.world.now + expiration) == Some(value))
            && (Get(s.world.entry, s.world.now).None? ==>
                  var d := Perform(s, value, expiration, Acquire(Answered));
                  && Get(d.world.entry, d.world.now) == Some(value)
                  && (RenewalOf(d).running <==> !StoppedSinceRelease(s.events)))
  {
    RunningRenewerHoldsTheLock(Fresh(now), value, expiration, acts);
    RenewedTtlIsNeverShorter(expiration);
    AcquiringStartsRenewalIff(Finally(Fresh(now), value, expiration, acts).events);
  }

  lemma FinallyOne(s: Keeper, value: string, expiration: nat, a: Act, rest: seq<Act>)
    ensures Finally(s, value, expiration, [a] + rest) == Finally(Perform(s, value, expiration, a), value, expiration, rest)
    ensures OnTimeRun(s, value, expiration, [a] + rest) <==>
            OnTime(s, expiration) && CanAct(s, value, expiration, a) && OnTimeRun(Perform(s, value, expiration, a), value, expiration, rest)
  {
    assert ([a] + rest)[1..] == rest;
  }

  const LOST_TWICE: seq<Event> := [Acquired, RenewalFailed, Acquired]

  lemma RenewalsOfLostTwice()
    ensures RenewalAfter([]) == FRESH && RenewalAfter([Acquired]) == Renewal(true, true)
    ensures RenewalAfter([Acquired, RenewalFailed]) == Renewal(true, false) == RenewalAfter(LOST_TWICE)
  {
    RenewalStep([], Acquired);
    RenewalStep([Acquired], RenewalFailed);
    RenewalStep([Acquired, RenewalFailed], Acquired);
    assert [] + [Acquired] == [Acquired] && [Acquired] + [RenewalFailed] == [Acquired, RenewalFailed];
    assert [Acquired, RenewalFailed] + [Acquired] == LOST_TWICE;
  }

  /** Acquire the lock, and lose the renewal that is due next. */
  lemma LoseRenewal(value: string, expiration: nat, rest: seq<Act>) returns (s: Keeper)
    requires expiration >= MIN_EXPIRATION
    ensures s == Keeper(World(RenewPeriod(expiration), Some(Held(value, expiration)), map[value := expiration]), [Acquired, RenewalFailed], 0, 0)
    ensures var acts := [Acquire(Answered)] + ([Others(Wait(RenewPeriod(expiration)))] + ([Tick(NotRun)] + rest));
            && Finally(Fresh(0), value, expiration, acts) == Finally(s, value, expiration, rest)
            && (OnTimeRun(Fresh(0), value, expiration, acts) <==> OnTimeRun(s, value, expiration, rest))
  {
    RenewalsOfLostTwice();
    var p := RenewPeriod(expiration);
    var held := Some(Held(value, expiration));
    var s1 := Keeper(World(0, held, map[value := expiration]), [Acquired], 0, 0);
    var s2 := s1.(world := s1.world.(now := p));
    s := Keeper(World(p, held, map[value := expiration]), [Acquired, RenewalFailed], 0, 0);
    assert Perform(Fresh(0), value, expiration, Acquire(Answered)) == s1;
    assert Perform(s1, value, expiration, Others(Wait(p))) == s2;
    assert Perform(s2, value, expiration, Tick(NotRun)) == s;
    FinallyOne(s2, value, expiration, Tick(NotRun), rest);
    FinallyOne(s1, value, expiration, Others(Wait(p)), [Tick(NotRun)] + rest);
    FinallyOne(Fresh(0), value, expiration, Acquire(Answered), [Others(Wait(p))] + ([Tick(NotRun)] + rest));
  }

  /** The lock lapses and is acquired again; nothing renews it, and another object takes it. */
  lemma LapseAgain(s: Keeper, value: string, other: string, expiration: nat) returns (acts: seq<Act>)
    requires expiration >= MIN_EXPIRATION && value != other
    requires s == Keeper(World(RenewPeriod(expiration), Some(Held(value, expiration)), map[value := expiration]), [Acquired, RenewalFailed], 0, 0)
    ensures OnTimeRun(s, value, expiration, acts)
    ensures var d := Finally(s, value, expiration, acts);
            d.events == LOST_TWICE && Get(d.world.entry, d.world.now) == Some(other)
  {
    RenewalsOfLostTwice();
    var now := RenewPeriod(expiration) + expiration;
    var s1 := s.(world := s.world.(now := now));
    var s2 := Keeper(World(now, Some(Held(value, now + expiration)), map[value := now + expiration]), LOST_TWICE, 0, 0);
    var s3 := s2.(world := s2.world.(now := now + expiration + 1));
    var s4 := s3.(world := Apply(s3.world, TryLock(other, expiration)));
    assert [Acquired, RenewalFailed] + [Acquired] == LOST_TWICE;
    assert Perform(s, value, expiration, Others(Wait(expiration))) == s1;
    assert Perform(s1, value, expiration, Acquire(Answered)) == s2;
    assert Perform(s2, value, expiration, Others(Wait(expiration + 1))) == s3;
    assert Perform(s3, value, expiration, Others(TryLock(other, expiration))) == s4;
    var a3 := [Others(TryLock(other, expiration))] + [];
    var a2 := [Others(Wait(expiration + 1))] + a3;
    var a1 := [Acquire(Answered)] + a2;
    acts := [Others(Wait(expiration))] + a1;
    FinallyOne(s3, value, expiration, Others(TryLock(other, expiration)), []);
    FinallyOne(s2, value, expiration, Others(Wait(expiration + 1)), a3);
    FinallyOne(s1, value, expiration, Acquire(Answered), a2);
    FinallyOne(s, value, expiration, Others(Wait(expiration)), a1);
  }

  /**
   A run of the object and its key: acquire, lose a renewal, acquire again. The object has not
   released the lock, no renewer is there, and another object holds the lock.
   */
  lemma SecondAcquisitionIsNotRenewed(value: string, other: string, expiration: nat) returns (acts: seq<Act>)
    requires expiration >= MIN_EXPIRATION && value != other
    ensures OnTimeRun(Fresh(0), value, expiration, acts)
    ensures var d := Finally(Fresh(0), value, expiration, acts);
            d.events == LOST_TWICE && RenewalOf(d) == Renewal(true, false) && Get(d.world.entry, d.world.now) == Some(other)
  {
    RenewalsOfLostTwice();
    var s := LoseRenewal(value, expiration, []);
    var rest := LapseAgain(s, value, other, expiration);
    s := LoseRenewal(value, expiration, rest);
    acts := [Acquire(Answered)] + ([Others(Wait(RenewPeriod(expiration)))] + ([Tick(NotRun)] + rest));
  }

  // ----- the lock object -----

  /** The lock's key in Redis, shared by every lock object on it. */
  class RedisKey {
    var entry: Option<Held>

    constructor ()
      ensures entry == None
    {
      entry := None;
    }
  }

  datatype LockError = RedisFailed | LockFailed | UnlockFailed | RenewFailed

  class Lock {
    const key: RedisKey
    const value: string
    const expiration: nat
    var renewStarted: bool
    var renewing: bool

    function Renewing(): Renewal
      reads this
    {
      Renewal(renewStarted, renewing)
    }

    constructor (key: RedisKey, value: string, expiration: nat)
      ensures this.key == key && this.value == value && Renewing() == FRESH
      ensures this.expiration == if expiration < 5_000_000_000 then 5_000_000_000 else expiration
    {
      this.key, this.value := key, value;
      renewStarted, renewing := false, false;
      this.expiration := if expiration < MIN_EXPIRATION then MIN_EXPIRATION else expiration;
    }

    method TryLock(now: int, reply: Reply) returns (err: Option<LockError>)
      modifies this`renewStarted, this`renewing, key
      ensures key.entry == if reply.NotRun? then old(key.entry) else SetNX(old(key.entry), value, expiration, now)
      ensures err.None? <==> reply.Answered? && Get(old(key.entry), now).None?
      ensures err == Some(LockFailed) <==> reply.Answered? && Get(old(key.entry), now).Some?
      ensures Renewing() == if err.None? then Step(old(Renewing()), Acquired) else old(Renewing())
    {
      if reply.NotRun? {
        return Some(RedisFailed);
      }
      var success := Get(key.entry, now).None?;
      if success {
        key.entry := Some(Held(value, now + expiration));
      }
      if reply.AnswerLost? {
        return Some(RedisFailed);
      }
      if !success {
        return Some(LockFailed);
      }
      if !renewStarted {
        renewStarted, renewing := true, true;
      }
      return None;
    }

    method Unlock(now: int, reply: Reply) returns (err: Option<LockError>)
      modifies this`renewStarted, this`renewing, key
      ensures key.entry == if reply.NotRun? then old(key.entry) else CompareAndDelete(old(key.entry), value, now)
      ensures Get(old(key.entry), now) != Some(value) ==> key.entry == old(key.entry)
      ensures err.None? <==> reply.Answered? && Get(old(key.entry), now) == Some(value)
      ensures err.None? ==> Get(key.entry, now).None?
      ensures Renewing() == Step(old(Renewing()), Released)
    {
      renewStarted, renewing := false, false;
      if reply.NotRun? {
        return Some(RedisFailed);
      }
      var deleted := Get(key.entry, now) == Some(value);
      if deleted {
        key.entry := None;
      }
      if reply.AnswerLost? {
        return Some(RedisFailed);
      }
      return if deleted then None else Some(UnlockFailed);
    }

    /** The renewer also stops when the context of the lock ends. */
    method EndContext()
      modifies this`renewing
      ensures Renewing() == Step(old(Renewing()), ContextEnded)
    {
      renewing := false;
    }

    /** One tick of the renewer; any error stops it. */
    method Renew(now: int, reply: Reply) returns (err: Option<LockError>)
      requires renewing
      modifies this`renewing, key
      ensures Renewing() == if err.None? then old(Renewing()) else Step(old(Renewing()), RenewalFailed)
      ensures key.entry == if reply.NotRun? then old(key.entry)
                           else CompareAndExpire(old(key.entry), value, LockExpirationSeconds(expiration) * SECOND, now)
      ensures Get(old(key.entry), now) != Some(value) ==> key.entry == old(key.entry)
      ensures err.None? <==> reply.Answered? && Get(old(key.entry), now) == Some(value)
      ensures err.None? ==> Get(key.entry, now + expiration) == Some(value)
    {
      if expiration >= MIN_EXPIRATION {
        RenewedTtlIsNeverShorter(expiration);
      }
      renewing := false;
      if reply.NotRun? {
        return Some(RedisFailed);
      }
      var held := Get(key.entry, now) == Some(value);
      if held {
        key.entry := Some(Held(value, now + LockExpirationSeconds(expiration) * SECOND));
      }
      if reply.AnswerLost? {
        return Some(RedisFailed);
      }
      if !held {
        return Some(RenewFailed);
      }
      renewing := true;
      return None;
    }
  }
}
