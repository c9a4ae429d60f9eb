/**
 A consumer group reading a stream: consumers read new entries only, hand each to the
 handler, and acknowledge those whose handler returned nil. Any number of consumers run
 at once, and each can crash between any two calls.
 */
module StreamGroup {
  /** What Redis keeps for the group. Entries are named by their position in the stream. */
  datatype Store = Store(appended: nat, delivered: nat, pending: set<nat>, acked: set<nat>)

  /** One call of the handler: for which entry, by which consumer, and whether it returned nil. */
  datatype Call = Call(entry: nat, consumer: nat, ok: bool)

  datatype ConsumerPc = AtNext | ToAck(entry: nat) | Stopped

  /** `todo` holds the entries of the reply that the loop has not reached yet. */
  datatype Consumer = Consumer(pc: ConsumerPc, todo: seq<nat>)

  datatype Group = Group(store: Store, calls: seq<Call>, consumers: seq<Consumer>)

  datatype Reading = Replied | ReplyLost | NotRead

  datatype Acking = Acked | AckedWithError | NotAcked

  datatype Move =
    | Append
    | Start
    | Read(consumer: nat, count: nat, reading: Reading)
    | Handle(consumer: nat, ok: bool)
    | Ack(consumer: nat, acking: Acking)
    | Crash(consumer: nat)

  function Range(lo: nat, n: nat): (s: seq<nat>)
    ensures |s| == n && forall i | 0 <= i < n :: s[i] == lo + i
  {
    seq(n, i requires 0 <= i => lo + i)
  }

  function Span(lo: nat, n: nat): (s: set<nat>)
    ensures forall k: nat :: k in s <==> lo <= k < lo + n
  {
    if n == 0 then {} else Span(lo, n - 1) + {lo + n - 1}
  }

  function BatchSize(store: Store, count: nat): nat {
    if store.appended <= store.delivered then 0
    else if store.appended - store.delivered < count then store.appended - store.delivered else count
  }

  /** XREADGROUP with ">": the next entries become pending, whether or not the reply arrives. */
  function DeliverTo(store: Store, count: nat): Store {
    var n := BatchSize(store, count);
    store.(delivered := store.delivered + n, pending := store.pending + Span(store.delivered, n))
  }

  function Acknowledge(store: Store, entry: nat): Store {
    store.(pending := store.pending - {entry}, acked := store.acked + {entry})
  }

  predicate Enabled(g: Group, m: Move) {
    match m
    case Append => true
    case Start => true
    case Read(c, count, _) => c < |g.consumers| && g.consumers[c] == Consumer(AtNext, []) && count > 0
    case Handle(c, _) => c < |g.consumers| && g.consumers[c].pc.AtNext? && g.consumers[c].todo != []
    case Ack(c, _) => c < |g.consumers| && g.consumers[c].pc.ToAck?
    case Crash(c) => c < |g.consumers|
  }

  function Apply(g: Group, m: Move): Group
    requires Enabled(g, m)
  {
    match m
    case Append => g.(store := g.store.(appended := g.store.appended + 1))
    case Start => g.(consumers := g.consumers + [Consumer(AtNext, [])])
    case Read(c, count, reading) =>
      if reading.NotRead? then g
      else
        var batch := if reading.Replied? then Range(g.store.delivered, BatchSize(g.store, count)) else [];
        g.(store := DeliverTo(g.store, count), consumers := g.consumers[c := Consumer(AtNext, batch)])
    case Handle(c, ok) =>
      var entry, rest := g.consumers[c].todo[0], g.consumers[c].todo[1..];
      g.(calls := g.calls + [Call(entry, c, ok)],
         consumers := g.consumers[c := Consumer(if ok then ToAck(entry) else AtNext, rest)])
    case Ack(c, acking) =>
      g.(store := if acking.NotAcked? then g.store else Acknowledge(g.store, g.consumers[c].pc.entry),
         consumers := g.consumers[c := Consumer(AtNext, g.consumers[c].todo)])
    case Crash(c) => g.(consumers := g.consumers[c := Consumer(Stopped, [])])
  }

  ghost predicate IsRun(g: Group, moves: seq<Move>)
    decreases |moves|
  {
    moves == [] || (Enabled(g, moves[0]) && IsRun(Apply(g, moves[0]), moves[1..]))
  }

  function After(g: Group, moves: seq<Move>): Group
    requires IsRun(g, moves)
    decreases |moves|
  {
    if moves == [] then g else After(Apply(g, moves[0]), moves[1..])
  }

  const INIT := Group(Store(0, 0, {}, {}), [], [])

  // ----- the invariant -----

  ghost predicate Called(g: Group, entry: nat) {
    exists p :: 0 <= p < |g.calls| && g.calls[p].entry == entry
  }

  ghost predicate CalledOk(g: Group, entry: nat) {
    exists p :: 0 <= p < |g.calls| && g.calls[p].entry == entry && g.calls[p].ok
  }

  /** The delivered entries are a prefix of the stream, split into pending and acknowledged. */
  ghost predicate Split(store: Store) {
    && store.delivered <= store.appended
    && (forall k | k in store.pending :: k < store.delivered && k !in store.acked)
    && (forall k | k in store.acked :: k < store.delivered)
    && (forall k: nat | k < store.delivered :: k in store.pending || k in store.acked)
  }

  ghost predicate AckedMeansOk(g: Group) {
    && (forall k | k in g.store.acked :: CalledOk(g, k))
    && (forall c | 0 <= c < |g.consumers| && g.consumers[c].pc.ToAck? :: CalledOk(g, g.consumers[c].pc.entry))
  }

  /** What consumer `c` still has to hand out: delivered, in order, and not handed out before. */
  ghost predicate Fresh(g: Group, c: nat)
    requires c < |g.consumers|
  {
    var todo := g.consumers[c].todo;
    && (forall i | 0 <= i < |todo| :: todo[i] < g.store.delivered && !Called(g, todo[i]))
    && (forall i, j | 0 <= i < j < |todo| :: todo[i] < todo[j])
    && (forall p, i | 0 <= p < |g.calls| && 0 <= i < |todo| && g.calls[p].consumer == c :: g.calls[p].entry < todo[i])
  }

  ghost predicate Disjoint(g: Group) {
    forall c, d, i, j | 0 <= c < d < |g.consumers| && 0 <= i < |g.consumers[c].todo| && 0 <= j < |g.consumers[d].todo| ::
      g.consumers[c].todo[i] != g.consumers[d].todo[j]
  }

  ghost predicate CalledOnce(calls: seq<Call>) {
    forall p, q | 0 <= p < q < |calls| :: calls[p].entry != calls[q].entry
  }

  ghost predicate InStreamOrder(calls: seq<Call>) {
    forall p, q | 0 <= p < q < |calls| && calls[p].consumer == calls[q].consumer :: calls[p].entry < calls[q].entry
  }

  ghost predicate CallsAreDelivered(g: Group) {
    forall p | 0 <= p < |g.calls| :: g.calls[p].entry < g.store.delivered && g.calls[p].consumer < |g.consumers|
  }

  ghost predicate Inv(g: Group) {
    && Split(g.store) && AckedMeansOk(g) && CalledOnce(g.calls) && InStreamOrder(g.calls)
    && CallsAreDelivered(g) && Disjoint(g) && (forall c | 0 <= c < |g.consumers| :: Fresh(g, c))
    && (forall c | 0 <= c < |g.consumers| && g.consumers[c].pc.Stopped? :: g.consumers[c].todo == [])
  }

  lemma DeliverKeepsSplit(store: Store, count: nat)
    requires Split(store)
    ensures Split(DeliverTo(store, count))
  {
  }

  lemma AcknowledgeKeepsSplit(store: Store, entry: nat)
    requires Split(store) && entry < store.delivered
    ensures Split(Acknowledge(store, entry))
  {
  }

  lemma ReadKeepsFresh(g: Group, m: Move)
    requires Enabled(g, m) && m.Read?
    requires CallsAreDelivered(g) && forall c | 0 <= c < |g.consumers| :: Fresh(g, c)
    ensures forall c | 0 <= c < |Apply(g, m).consumers| :: Fresh(Apply(g, m), c)
  {
    var g' := Apply(g, m);
    forall c | 0 <= c < |g'.consumers|
      ensures Fresh(g', c)
    {
      assert Fresh(g, c);
      assert forall k: nat :: Called(g', k) ==> k < g.store.delivered && Called(g, k);
    }
  }

  lemma ReadKeepsDisjoint(g: Group, m: Move)
    requires Enabled(g, m) && m.Read?
    requires Disjoint(g) && forall c | 0 <= c < |g.consumers| :: Fresh(g, c)
    ensures Disjoint(Apply(g, m))
  {
    var g' := Apply(g, m);
    forall c, d, i, j | 0 <= c < d < |g'.consumers| && 0 <= i < |g'.consumers[c].todo| && 0 <= j < |g'.consumers[d].todo|
      ensures g'.consumers[c].todo[i] != g'.consumers[d].todo[j]
    {
      assert Fresh(g, c) && Fresh(g, d);
    }
  }

  lemma ReadKeepsInv(g: Group, m: Move)
    requires Inv(g) && Enabled(g, m) && m.Read?
    ensures Inv(Apply(g, m))
  {
    ReadKeepsFresh(g, m);
    ReadKeepsDisjoint(g, m);
    DeliverKeepsSplit(g.store, m.count);
    var g' := Apply(g, m);
    assert forall k :: CalledOk(g, k) ==> CalledOk(g', k);
  }

  lemma HandleKeepsInv(g: Group, m: Move)
    requires Inv(g) && Enabled(g, m) && m.Handle?
    ensures Inv(Apply(g, m))
  {
    var g' := Apply(g, m);
    var entry := g.consumers[m.consumer].todo[0];
    assert Fresh(g, m.consumer);
    assert forall k :: CalledOk(g, k) ==> CalledOk(g', k) by {
      assert forall p | 0 <= p < |g.calls| :: g'.calls[p] == g.calls[p];
    }
    assert m.ok ==> CalledOk(g', entry) by {
      assert g'.calls[|g.calls|] == Call(entry, m.consumer, m.ok);
    }
    forall c | 0 <= c < |g'.consumers|
      ensures Fresh(g', c)
    {
      HandleKeepsFresh(g, m, c);
    }
  }

  lemma HandleKeepsFresh(g: Group, m: Move, c: nat)
    requires Enabled(g, m) && m.Handle? && c < |g.consumers|
    requires Fresh(g, c) && Fresh(g, m.consumer) && Disjoint(g)
    ensures Fresh(Apply(g, m), c)
  {
    var g' := Apply(g, m);
    var entry := g.consumers[m.consumer].todo[0];
    var todo, todo' := g.consumers[c].todo, g'.consumers[c].todo;
    forall i | 0 <= i < |todo'|
      ensures todo'[i] < g'.store.delivered && !Called(g', todo'[i])
    {
      var j := if c == m.consumer then i + 1 else i;
      assert todo'[i] == todo[j];
      assert todo[j] != entry;
      assert !Called(g, todo[j]);
    }
  }

  lemma ShrinkKeepsFresh(g: Group, g': Group, c: nat)
    requires c < |g.consumers| && c < |g'.consumers| && Fresh(g, c)
    requires g'.calls == g.calls && g'.store.delivered == g.store.delivered
    requires g'.consumers[c].todo == g.consumers[c].todo || g'.consumers[c].todo == []
    ensures Fresh(g', c)
  {
    assert forall k :: Called(g', k) ==> Called(g, k);
  }

  lemma OtherMovesKeepFresh(g: Group, m: Move)
    requires Enabled(g, m) && !m.Read? && !m.Handle?
    requires Disjoint(g) && forall c | 0 <= c < |g.consumers| :: Fresh(g, c)
    ensures Disjoint(Apply(g, m)) && forall c | 0 <= c < |Apply(g, m).consumers| :: Fresh(Apply(g, m), c)
  {
    var g' := Apply(g, m);
    forall c | 0 <= c < |g'.consumers|
      ensures Fresh(g', c)
    {
      if c < |g.consumers| {
        ShrinkKeepsFresh(g, g', c);
      }
    }
  }

  lemma OtherMovesKeepInv(g: Group, m: Move)
    requires Inv(g) && Enabled(g, m) && !m.Read? && !m.Handle?
    ensures Inv(Apply(g, m))
  {
    OtherMovesKeepFresh(g, m);
    var g' := Apply(g, m);
    assert forall k :: CalledOk(g, k) <==> CalledOk(g', k);
    if m.Ack? {
      AcknowledgeKeepsSplit(g.store, g.consumers[m.consumer].pc.entry);
    }
  }

  lemma ApplyKeepsInv(g: Group, m: Move)
    requires Inv(g) && Enabled(g, m)
    ensures Inv(Apply(g, m))
  {
    if m.Read? {
      ReadKeepsInv(g, m);
    } else if m.Handle? {
      HandleKeepsInv(g, m);
    } else {
      OtherMovesKeepInv(g, m);
    }
  }

  lemma {:induction false} RunKeepsInv(g: Group, moves: seq<Move>)
    requires Inv(g) && IsRun(g, moves)
    ensures Inv(After(g, moves))
    decreases |moves|
  {
    if moves != [] {
      ApplyKeepsInv(g, moves[0]);
      RunKeepsInv(Apply(g, moves[0]), moves[1..]);
    }
  }

  /**
   Over every run: the delivered entries are a prefix of the stream and are split into
   pending and acknowledged; acknowledged means the handler returned nil; no entry
   reaches a handler twice; and each consumer hands out entries in stream order.
   */
  lemma GroupAccounts(moves: seq<Move>)
    requires IsRun(INIT, moves)
    ensures var g := After(INIT, moves);
            && Split(g.store)
            && (forall k | k in g.store.acked :: CalledOk(g, k))
            && CalledOnce(g.calls) && InStreamOrder(g.calls)
  {
    RunKeepsInv(INIT, moves);
  }

  /** An entry whose handler failed stays pending and is never handed out again. */
  lemma FailedEntryStaysPending(before: seq<Move>, after: seq<Move>, p: nat)
    requires IsRun(INIT, before) && IsRun(After(INIT, before), after)
    requires p < |After(INIT, before).calls| && !After(INIT, before).calls[p].ok
    ensures var entry, g := After(INIT, before).calls[p].entry, After(After(INIT, before), after);
            && entry in g.store.pending
            && forall q | 0 <= q < |g.calls| && g.calls[q].entry == entry :: q == p
  {
    RunKeepsInv(INIT, before);
    RunKeepsInv(After(INIT, before), after);
    CallsOnlyGrow(After(INIT, before), after);
  }

  lemma {:induction false} CallsOnlyGrow(g: Group, moves: seq<Move>)
    requires IsRun(g, moves)
    ensures g.calls <= After(g, moves).calls
    decreases |moves|
  {
    if moves != [] {
      CallsOnlyGrow(Apply(g, moves[0]), moves[1..]);
    }
  }

  const FAILED_ONCE: seq<Move> := [Append, Start, Read(0, 1, Replied), Handle(0, false)]

  lemma FailedOnceIsRun()
    ensures IsRun(INIT, FAILED_ONCE) && After(INIT, FAILED_ONCE).calls == [Call(0, 0, false)]
  {
    var one := Apply(INIT, Append);
    var two := Apply(one, Start);
    assert two.consumers == [Consumer(AtNext, [])];
    var three := Apply(two, Read(0, 1, Replied));
    assert three.consumers[0].todo == Range(0, 1) && Range(0, 1) == [0];
    var four := Apply(three, Handle(0, false));
    RunOfOne(three, Handle(0, false));
    var m1, m2 := FAILED_ONCE[1..], FAILED_ONCE[2..];
    assert m2[1..] == [Handle(0, false)] && m1[1..] == m2;
    assert IsRun(two, m2) && After(two, m2) == four;
    assert IsRun(one, m1) && After(one, m1) == four;
  }

  lemma RunOfOne(g: Group, m: Move)
    requires Enabled(g, m)
    ensures IsRun(g, [m]) && After(g, [m]) == Apply(g, m)
  {
    assert [m][1..] == [] && IsRun(Apply(g, m), []);
  }

  /** From the start: one entry, one consumer, and a handler that fails. The entry is never called or acknowledged again. */
  lemma FailedHandlerStrandsItsEntry(after: seq<Move>)
    requires IsRun(INIT, FAILED_ONCE) && IsRun(After(INIT, FAILED_ONCE), after)
    ensures var g := After(After(INIT, FAILED_ONCE), after);
            && 0 in g.store.pending && 0 !in g.store.acked
            && forall q | 0 <= q < |g.calls| && g.calls[q].entry == 0 :: q == 0
  {
    FailedOnceIsRun();
    FailedEntryStaysPending(FAILED_ONCE, after, 0);
    RunKeepsInv(INIT, FAILED_ONCE);
    RunKeepsInv(After(INIT, FAILED_ONCE), after);
  }

  // ----- which entries can still be acknowledged -----

  ghost predicate Held(g: Group, entry: nat) {
    exists c :: 0 <= c < |g.consumers| && (g.consumers[c].pc == ToAck(entry) || entry in g.consumers[c].todo)
  }

  /** Not delivered yet, or in the hands of a consumer that is still running. */
  ghost predicate Waiting(g: Group, entry: nat) {
    entry >= g.store.delivered || Held(g, entry)
  }

  ghost predicate CanBeAcked(g: Group, entry: nat) {
    exists moves :: IsRun(g, moves) && entry in After(g, moves).store.acked
  }

  ghost predicate Stuck(g: Group, entry: nat) {
    entry !in g.store.acked && !Waiting(g, entry)
  }

  lemma StuckStays(g: Group, m: Move, entry: nat)
    requires Stuck(g, entry) && Enabled(g, m)
    ensures Stuck(Apply(g, m), entry)
  {
    var g' := Apply(g, m);
    forall c | 0 <= c < |g'.consumers|
      ensures g'.consumers[c].pc != ToAck(entry) && entry !in g'.consumers[c].todo
    {
      if c < |g.consumers| {
        assert g.consumers[c].pc != ToAck(entry) && entry !in g.consumers[c].todo;
      }
    }
  }

  lemma {:induction false} StuckRun(g: Group, moves: seq<Move>, entry: nat)
    requires Stuck(g, entry) && IsRun(g, moves)
    ensures Stuck(After(g, moves), entry)
    decreases |moves|
  {
    if moves != [] {
      StuckStays(g, moves[0], entry);
      StuckRun(Apply(g, moves[0]), moves[1..], entry);
    }
  }

  lemma AckRun(g: Group, c: nat, entry: nat) returns (moves: seq<Move>)
    requires c < |g.consumers| && g.consumers[c].pc == ToAck(entry)
    ensures IsRun(g, moves) && entry in After(g, moves).store.acked
  {
    var m := Ack(c, Acked);
    moves := [m];
    var g' := Apply(g, m);
    assert moves[1..] == [] && IsRun(g', []) && After(g', []) == g';
  }

  /** A running consumer can work through its batch until it has acknowledged its `i`-th entry. */
  lemma {:induction false} BatchRun(g: Group, c: nat, i: nat) returns (moves: seq<Move>)
    requires c < |g.consumers| && i < |g.consumers[c].todo| && !g.consumers[c].pc.Stopped?
    ensures IsRun(g, moves) && g.consumers[c].todo[i] in After(g, moves).store.acked
    decreases i, if g.consumers[c].pc.AtNext? then 0 else 1
  {
    var m, rest;
    if g.consumers[c].pc.ToAck? {
      m := Ack(c, NotAcked);
      rest := BatchRun(Apply(g, m), c, i);
    } else if i == 0 {
      m := Handle(c, true);
      rest := AckRun(Apply(g, m), c, g.consumers[c].todo[0]);
    } else {
      m := Handle(c, false);
      assert Apply(g, m).consumers[c].todo[i - 1] == g.consumers[c].todo[i];
      rest := BatchRun(Apply(g, m), c, i - 1);
    }
    moves := [m] + rest;
    assert moves[1..] == rest;
  }

  lemma {:induction false} UndeliveredRun(g: Group, entry: nat) returns (moves: seq<Move>)
    requires entry >= g.store.delivered
    ensures IsRun(g, moves) && entry in After(g, moves).store.acked
    decreases if entry >= g.store.appended then entry + 1 - g.store.appended else 0
  {
    if entry >= g.store.appended {
      var rest := UndeliveredRun(Apply(g, Append), entry);
      moves := [Append] + rest;
      assert moves[1..] == rest;
    } else {
      var c := |g.consumers|;
      var g1 := Apply(g, Start);
      var m := Read(c, entry + 1 - g.store.delivered, Replied);
      var g2 := Apply(g1, m);
      assert g2.consumers[c].todo[entry - g.store.delivered] == entry;
      var rest := BatchRun(g2, c, entry - g.store.delivered);
      var later := [m] + rest;
      assert later[1..] == rest;
      moves := [Start] + later;
      assert moves[1..] == later;
    }
  }

  /** An entry can still be acknowledged exactly when it is acknowledged, undelivered, or held by a running consumer. */
  lemma CanBeAckedIff(g: Group, entry: nat)
    requires Inv(g)
    ensures CanBeAcked(g, entry) <==> entry in g.store.acked || Waiting(g, entry)
  {
    if entry in g.store.acked {
      assert IsRun(g, []) && After(g, []) == g;
    } else if entry >= g.store.delivered {
      var moves := UndeliveredRun(g, entry);
    } else if Held(g, entry) {
      var c :| 0 <= c < |g.consumers| && (g.consumers[c].pc == ToAck(entry) || entry in g.consumers[c].todo);
      if g.consumers[c].pc == ToAck(entry) {
        var moves := AckRun(g, c, entry);
      } else {
        var i :| 0 <= i < |g.consumers[c].todo| && g.consumers[c].todo[i] == entry;
        var moves := BatchRun(g, c, i);
      }
    } else if CanBeAcked(g, entry) {
      var moves :| IsRun(g, moves) && entry in After(g, moves).store.acked;
      StuckRun(g, moves, entry);
    }
  }

  // ----- one turn of Subscribe -----

  datatype Outcome = Outcome(ok: bool, acking: Acking)

  predicate Acks(o: Outcome) {
    o.ok && !o.acking.NotAcked?
  }

  function AckedIn(lo: nat, outcomes: seq<Outcome>, n: nat): (s: set<nat>)
    requires n <= |outcomes|
    ensures forall k: nat :: k in s <==> lo <= k < lo + n && Acks(outcomes[k - lo])
  {
    if n == 0 then {} else AckedIn(lo, outcomes, n - 1) + (if Acks(outcomes[n - 1]) then {lo + n - 1} else {})
  }

  function CallsFrom(me: nat, lo: nat, outcomes: seq<Outcome>): (calls: seq<Call>)
    ensures |calls| == |outcomes|
  {
    seq(|outcomes|, i requires 0 <= i < |outcomes| => Call(lo + i, me, outcomes[i].ok))
  }

  class Subscriber {
    const me: nat
    var store: Store
    var calls: seq<Call>

    constructor (me: nat, store: Store)
      ensures this.me == me && this.store == store && calls == []
    {
      this.me, this.store, this.calls := me, store, [];
    }

    /**
     One turn of the endless loop: read up to `count` new entries, hand each to the
     handler, acknowledge those that succeeded. `outcomes` gives the answers of the handler and of XACK.
     */
    method Poll(count: int, reading: Reading, outcomes: seq<Outcome>)
      requires |outcomes| == if reading.Replied? then BatchSize(store, if count <= 0 then 1 else count) else 0
      modifies this
      ensures calls == old(calls) + CallsFrom(me, old(store).delivered, outcomes)
      ensures store.appended == old(store).appended
      ensures store.delivered == old(store).delivered +
                                 (if reading.NotRead? then 0 else BatchSize(old(store), if count <= 0 then 1 else count))
      ensures store.acked == old(store).acked + AckedIn(old(store).delivered, outcomes, |outcomes|)
      ensures store.pending == old(store).pending
                               + Span(old(store).delivered, store.delivered - old(store).delivered)
                               - AckedIn(old(store).delivered, outcomes, |outcomes|)
    {
      var n: nat := if count <= 0 then 1 else count;
      var lo := store.delivered;
      if !reading.NotRead? {
        store := DeliverTo(store, n);
      }
      if reading.Replied? {
        HandleAll(Range(lo, |outcomes|), outcomes, lo);
      }
    }

    /** The loop over the entries of a reply. */
    method HandleAll(batch: seq<nat>, outcomes: seq<Outcome>, ghost lo: nat)
      requires batch == Range(lo, |outcomes|)
      modifies this
      ensures calls == old(calls) + CallsFrom(me, lo, outcomes)
      ensures store == Worn(old(store), lo, outcomes, |outcomes|)
    {
      for i := 0 to |batch|
        invariant calls == old(calls) + CallsFrom(me, lo, outcomes[..i])
        invariant store == Worn(old(store), lo, outcomes, i)
      {
        assert outcomes[..i + 1][..i] == outcomes[..i];
        calls := calls + [Call(batch[i], me, outcomes[i].ok)];
        if !outcomes[i].ok {
          continue;
        }
        if !outcomes[i].acking.NotAcked? {
          store := Acknowledge(store, batch[i]);
        }
      }
      assert outcomes[..|outcomes|] == outcomes;
    }
  }

  /** The store once `n` of the entries from `lo` on have been handled. */
  function Worn(store: Store, lo: nat, outcomes: seq<Outcome>, n: nat): Store
    requires n <= |outcomes|
  {
    store.(pending := store.pending - AckedIn(lo, outcomes, n), acked := store.acked + AckedIn(lo, outcomes, n))
  }

  function EntryMoves(c: nat, o: Outcome): seq<Move> {
    if o.ok then [Handle(c, true), Ack(c, o.acking)] else [Handle(c, false)]
  }

  function BatchMoves(c: nat, outcomes: seq<Outcome>): seq<Move> {
    if outcomes == [] then [] else EntryMoves(c, outcomes[0]) + BatchMoves(c, outcomes[1..])
  }

  lemma EntryIsRun(g: Group, c: nat, todo: seq<nat>, o: Outcome) returns (g': Group)
    requires c < |g.consumers| && todo != [] && g.consumers[c] == Consumer(AtNext, todo)
    ensures IsRun(g, EntryMoves(c, o)) && After(g, EntryMoves(c, o)) == g'
    ensures g' == Group(if Acks(o) then Acknowledge(g.store, todo[0]) else g.store,
                        g.calls + [Call(todo[0], c, o.ok)],
                        g.consumers[c := Consumer(AtNext, todo[1..])])
  {
    var moves := EntryMoves(c, o);
    var g1 := Apply(g, moves[0]);
    if o.ok {
      assert moves[1..] == [Ack(c, o.acking)] && moves[1..][1..] == [];
      g' := Apply(g1, moves[1]);
      assert IsRun(g', []) && IsRun(g1, moves[1..]) && After(g1, moves[1..]) == g';
    } else {
      assert moves[1..] == [];
      g' := g1;
      assert IsRun(g1, []);
    }
    assert g'.consumers == g.consumers[c := Consumer(AtNext, todo[1..])];
  }

  lemma {:induction false} RunsCompose(g: Group, first: seq<Move>, second: seq<Move>)
    requires IsRun(g, first) && IsRun(After(g, first), second)
    ensures IsRun(g, first + second) && After(g, first + second) == After(After(g, first), second)
    decreases |first|
  {
    if first == [] {
      assert first + second == second;
    } else {
      assert (first + second)[1..] == first[1..] + second;
      RunsCompose(Apply(g, first[0]), first[1..], second);
    }
  }

  /** The state in which `n` of the entries read from `lo` on have been handled. */
  function Worked(read: Group, c: nat, lo: nat, outcomes: seq<Outcome>, n: nat): Group
    requires n <= |outcomes| && c < |read.consumers|
  {
    Group(Worn(read.store, lo, outcomes, n),
          read.calls + CallsFrom(c, lo, outcomes[..n]),
          read.consumers[c := Consumer(AtNext, Range(lo, |outcomes|)[n..])])
  }

  lemma EntryIsWorked(read: Group, c: nat, lo: nat, outcomes: seq<Outcome>, n: nat)
    requires n < |outcomes| && c < |read.consumers|
    ensures var g := Worked(read, c, lo, outcomes, n);
            IsRun(g, EntryMoves(c, outcomes[n])) && After(g, EntryMoves(c, outcomes[n])) == Worked(read, c, lo, outcomes, n + 1)
  {
    var g, g1 := Worked(read, c, lo, outcomes, n), Worked(read, c, lo, outcomes, n + 1);
    var todo := Range(lo, |outcomes|)[n..];
    var g' := EntryIsRun(g, c, todo, outcomes[n]);
    assert todo[0] == lo + n && todo[1..] == Range(lo, |outcomes|)[n + 1..];
    assert g'.consumers == g1.consumers;
    assert CallsFrom(c, lo, outcomes[..n + 1]) == CallsFrom(c, lo, outcomes[..n]) + [Call(lo + n, c, outcomes[n].ok)];
    assert g'.calls == g1.calls;
    assert g'.store == g1.store;
  }

  lemma {:induction false} BatchIsRun(read: Group, c: nat, lo: nat, outcomes: seq<Outcome>, n: nat)
    requires n <= |outcomes| && c < |read.consumers|
    ensures var g := Worked(read, c, lo, outcomes, n);
            IsRun(g, BatchMoves(c, outcomes[n..])) &&
            After(g, BatchMoves(c, outcomes[n..])) == Worked(read, c, lo, outcomes, |outcomes|)
    decreases |outcomes| - n
  {
    if n == |outcomes| {
      assert outcomes[n..] == [];
    } else {
      assert outcomes[n..][0] == outcomes[n] && outcomes[n..][1..] == outcomes[n + 1..];
      EntryIsWorked(read, c, lo, outcomes, n);
      BatchIsRun(read, c, lo, outcomes, n + 1);
      RunsCompose(Worked(read, c, lo, outcomes, n), EntryMoves(c, outcomes[n]), BatchMoves(c, outcomes[n + 1..]));
    }
  }

  /** A read whose reply is lost still delivers; one that did not happen changes nothing. */
  lemma UnansweredReadIsRun(g: Group, c: nat, count: nat, reading: Reading)
    requires c < |g.consumers| && g.consumers[c] == Consumer(AtNext, []) && count > 0 && !reading.Replied?
    ensures var moves := [Read(c, count, reading)];
            IsRun(g, moves) && After(g, moves) == g.(store := if reading.NotRead? then g.store else DeliverTo(g.store, count))
  {
    var moves := [Read(c, count, reading)];
    var d := Apply(g, moves[0]);
    assert moves[1..] == [] && IsRun(d, []) && After(d, []) == d;
    assert d.consumers == g.consumers;
  }

  /**
   A turn of Subscribe, however its read turns out, does to the store and to the handler
   what one consumer does in a run of its own.
   */
  lemma PollIsRun(g: Group, c: nat, count: nat, reading: Reading, outcomes: seq<Outcome>)
    requires c < |g.consumers| && g.consumers[c] == Consumer(AtNext, []) && count > 0
    requires |outcomes| == if reading.Replied? then BatchSize(g.store, count) else 0
    ensures var moves, lo := [Read(c, count, reading)] + BatchMoves(c, outcomes), g.store.delivered;
            var n := if reading.NotRead? then 0 else BatchSize(g.store, count);
            IsRun(g, moves) &&
            After(g, moves) == Group(Store(g.store.appended, lo + n,
                                           g.store.pending + Span(lo, n) - AckedIn(lo, outcomes, |outcomes|),
                                           g.store.acked + AckedIn(lo, outcomes, |outcomes|)),
                                     g.calls + CallsFrom(c, lo, outcomes), g.consumers)
  {
    if reading.Replied? {
      RepliedIsRun(g, c, count, outcomes);
    } else {
      UnansweredReadIsRun(g, c, count, reading);
      var moves := [Read(c, count, reading)];
      assert outcomes == [] && moves + BatchMoves(c, outcomes) == moves;
      assert g.calls + CallsFrom(c, g.store.delivered, outcomes) == g.calls;
      assert g.store.pending + Span(g.store.delivered, 0) - {} == g.store.pending && g.store.acked + {} == g.store.acked;
    }
  }

  lemma RepliedIsRun(g: Group, c: nat, count: nat, outcomes: seq<Outcome>)
    requires c < |g.consumers| && g.consumers[c] == Consumer(AtNext, []) && count > 0
    requires |outcomes| == BatchSize(g.store, count)
    ensures var moves, lo := [Read(c, count, Replied)] + BatchMoves(c, outcomes), g.store.delivered;
            IsRun(g, moves) &&
            After(g, moves) == Group(Store(g.store.appended, lo + |outcomes|,
                                           g.store.pending + Span(lo, |outcomes|) - AckedIn(lo, outcomes, |outcomes|),
                                           g.store.acked + AckedIn(lo, outcomes, |outcomes|)),
                                     g.calls + CallsFrom(c, lo, outcomes), g.consumers)
  {
    var lo := g.store.delivered;
    var read := Apply(g, Read(c, count, Replied));
    ReadIsStart(read, c, lo, outcomes);
    BatchIsRun(read, c, lo, outcomes, 0);
    assert outcomes[0..] == outcomes && outcomes[..|outcomes|] == outcomes;
    var moves := [Read(c, count, Replied)] + BatchMoves(c, outcomes);
    assert moves[1..] == BatchMoves(c, outcomes);
    assert Worked(read, c, lo, outcomes, |outcomes|).consumers == g.consumers;
  }

  lemma ReadIsStart(read: Group, c: nat, lo: nat, outcomes: seq<Outcome>)
    requires c < |read.consumers| && read.consumers[c] == Consumer(AtNext, Range(lo, |outcomes|))
    ensures Worked(read, c, lo, outcomes, 0) == read
  {
    var start := Worked(read, c, lo, outcomes, 0);
    assert start.consumers == read.consumers && start.store == read.store && start.calls == read.calls;
  }
}
