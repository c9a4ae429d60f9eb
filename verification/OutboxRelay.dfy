/**
 The outbox relay: rows are published to a stream and then marked, in two separate calls
 that can each fail, by any number of relays that can crash between any two of them.
 */
module OutboxRelay {

  type EventId = string

  datatype Status = Pending | Published | Failed

  datatype Row = Row(status: Status, retries: nat)

  type Rows = map<EventId, Row>

  /** MarkAsPublished, whatever the row's status is. */
  function MarkPublished(rows: Rows, id: EventId): Rows {
    if id in rows then rows[id := rows[id].(status := Published)] else rows
  }

  /**
   How often an event is tried. MarkAsFailed raises the count and sets the status by
   `retry_count + 1 >= max` in one UPDATE; `countedFirst` says that the second assignment
   sees what the first has written, as it does in MySQL, which assigns from left to right.
   */
  datatype Policy = Policy(maxRetries: nat, countedFirst: bool)

  /** What the status is set to when the count is raised to `retries`. */
  predicate UsedUp(retries: nat, policy: Policy) {
    (if policy.countedFirst then retries + 1 else retries) >= policy.maxRetries
  }

  /** MarkAsFailed: one more retry, and failed for good when they are used up. */
  function MarkFailed(rows: Rows, id: EventId, policy: Policy): Rows {
    if id in rows then
      rows[id := Row(if UsedUp(rows[id].retries + 1, policy) then Failed else Pending, rows[id].retries + 1)]
    else rows
  }

  /** The rows GetPendingEvents selects. */
  predicate Due(rows: Rows, id: EventId, policy: Policy) {
    id in rows && rows[id].status.Pending? && rows[id].retries < policy.maxRetries
  }

  /** An XADD can succeed, fail, or succeed while the client sees an error. */
  datatype Sending = Sent | SentWithError | NotSent

  // ----- relays as processes -----

  datatype RelayPc = AtNext | ToMarkPublished(id: EventId) | ToMarkFailed(id: EventId) | Stopped

  /** A call of Process: the events it fetched and has not tried yet, and what it does next. */
  datatype Relay = Relay(pc: RelayPc, todo: seq<EventId>)

  /** `created` remembers every event ever written to the outbox: event ids are unique. */
  datatype Outbox = Outbox(policy: Policy, created: set<EventId>, rows: Rows, stream: seq<EventId>, relays: seq<Relay>)

  datatype Move =
    | Create(id: EventId)
    | Clean(id: EventId)
    | Fetch(batch: seq<EventId>)
    | Publish(relay: nat, sending: Sending)
    | Mark(relay: nat, ok: bool)
    | Crash(relay: nat)

  predicate Enabled(b: Outbox, m: Move) {
    match m
    case Create(id) => id !in b.created
    case Clean(id) => id in b.rows && !b.rows[id].status.Pending?
    case Fetch(batch) => forall i | 0 <= i < |batch| :: Due(b.rows, batch[i], b.policy)
    case Publish(r, _) => r < |b.relays| && b.relays[r].pc.AtNext? && b.relays[r].todo != []
    case Mark(r, _) => r < |b.relays| && (b.relays[r].pc.ToMarkPublished? || b.relays[r].pc.ToMarkFailed?)
    case Crash(r) => r < |b.relays|
  }

  function Apply(b: Outbox, m: Move): Outbox
    requires Enabled(b, m)
  {
    match m
    case Create(id) => b.(created := b.created + {id}, rows := b.rows[id := Row(Pending, 0)])
    case Clean(id) => b.(rows := b.rows - {id})
    case Fetch(batch) => b.(relays := b.relays + [Relay(AtNext, batch)])
    case Publish(r, sending) =>
      var id := b.relays[r].todo[0];
      var pc := if sending.Sent? then ToMarkPublished(id) else ToMarkFailed(id);
      b.(stream := if sending.NotSent? then b.stream else b.stream + [id],
         relays := b.relays[r := Relay(pc, b.relays[r].todo[1..])])
    case Mark(r, ok) =>
      var pc := b.relays[r].pc;
      var rows := if !ok then b.rows
                  else if pc.ToMarkPublished? then MarkPublished(b.rows, pc.id)
                  else MarkFailed(b.rows, pc.id, b.policy);
      b.(rows := rows, relays := b.relays[r := b.relays[r].(pc := AtNext)])
    case Crash(r) => b.(relays := b.relays[r := Relay(Stopped, [])])
  }

  ghost predicate IsRun(b: Outbox, moves: seq<Move>)
    decreases |moves|
  {
    moves == [] || (Enabled(b, moves[0]) && IsRun(Apply(b, moves[0]), moves[1..]))
  }

  function After(b: Outbox, moves: seq<Move>): Outbox
    requires IsRun(b, moves)
    decreases |moves|
  {
    if moves == [] then b else After(Apply(b, moves[0]), moves[1..])
  }

  function Init(policy: Policy): Outbox {
    Outbox(policy, {}, map[], [], [])
  }

  // ----- published rows have an entry -----

  ghost predicate Inv(b: Outbox) {
    && b.rows.Keys <= b.created
    && (forall id | id in b.rows && b.rows[id].status.Published? :: id in b.stream)
    && (forall id | id in b.rows && b.rows[id].status.Failed? :: UsedUp(b.rows[id].retries, b.policy))
    && (forall r | 0 <= r < |b.relays| && b.relays[r].pc.ToMarkPublished? :: b.relays[r].pc.id in b.stream)
    && (forall r, i | 0 <= r < |b.relays| && 0 <= i < |b.relays[r].todo| :: b.relays[r].todo[i] in b.created)
    && (forall r | 0 <= r < |b.relays| && b.relays[r].pc.Stopped? :: b.relays[r].todo == [])
  }

  lemma ApplyKeepsInv(b: Outbox, m: Move)
    requires Inv(b) && Enabled(b, m)
    ensures Inv(Apply(b, m)) && b.stream <= Apply(b, m).stream && Apply(b, m).policy == b.policy
  {
  }

  lemma {:induction false} RunKeepsInv(b: Outbox, moves: seq<Move>)
    requires Inv(b) && IsRun(b, moves)
    ensures Inv(After(b, moves)) && b.stream <= After(b, moves).stream && After(b, moves).policy == b.policy
    decreases |moves|
  {
    if moves != [] {
      ApplyKeepsInv(b, moves[0]);
      RunKeepsInv(Apply(b, moves[0]), moves[1..]);
    }
  }

  /** Under every interleaving of failures and crashes, a row marked published has a stream entry. */
  lemma PublishedHasEntry(policy: Policy, moves: seq<Move>, id: EventId)
    requires IsRun(Init(policy), moves)
    requires var b := After(Init(policy), moves); id in b.rows && b.rows[id].status.Published?
    ensures id in After(Init(policy), moves).stream
  {
    RunKeepsInv(Init(policy), moves);
  }

  // ----- which events can still be sent -----

  ghost predicate Held(b: Outbox, id: EventId) {
    exists r :: 0 <= r < |b.relays| && id in b.relays[r].todo
  }

  /** The event is on the stream, in a relay's hands, or due to be fetched. */
  ghost predicate Sendable(b: Outbox, id: EventId) {
    id in b.stream || Held(b, id) || Due(b.rows, id, b.policy)
  }

  lemma UnsendableStays(b: Outbox, m: Move, id: EventId)
    requires Inv(b) && id in b.created && !Sendable(b, id) && Enabled(b, m)
    ensures id in Apply(b, m).created && !Sendable(Apply(b, m), id)
  {
    var b' := Apply(b, m);
    assert forall r | 0 <= r < |b.relays| :: id !in b.relays[r].todo;
    forall r | 0 <= r < |b'.relays|
      ensures id !in b'.relays[r].todo
    {
      if m.Fetch? && r == |b.relays| {
        assert forall i | 0 <= i < |m.batch| :: m.batch[i] != id;
      } else {
        assert id !in b.relays[r].todo;
      }
    }
    if m.Publish? {
      assert b.relays[m.relay].todo[0] in b.relays[m.relay].todo;
    }
  }

  lemma {:induction false} UnsendableRun(b: Outbox, moves: seq<Move>, id: EventId)
    requires Inv(b) && id in b.created && !Sendable(b, id) && IsRun(b, moves)
    ensures !Sendable(After(b, moves), id)
    decreases |moves|
  {
    if moves != [] {
      ApplyKeepsInv(b, moves[0]);
      UnsendableStays(b, moves[0], id);
      UnsendableRun(Apply(b, moves[0]), moves[1..], id);
    }
  }

  /** A relay that still holds the event can be run until it publishes it. */
  lemma {:induction false} HeldCanBeSent(b: Outbox, r: nat, k: nat) returns (moves: seq<Move>)
    requires Inv(b) && r < |b.relays| && k < |b.relays[r].todo|
    ensures IsRun(b, moves) && b.relays[r].todo[k] in After(b, moves).stream
    ensures Copies(After(b, moves), b.relays[r].todo[k]) > Copies(b, b.relays[r].todo[k])
    decreases k, if b.relays[r].pc.AtNext? then 0 else 1
  {
    if !b.relays[r].pc.AtNext? {
      var m := Mark(r, false);
      ApplyKeepsInv(b, m);
      var rest := HeldCanBeSent(Apply(b, m), r, k);
      moves := [m] + rest;
    } else if k == 0 {
      var m := Publish(r, Sent);
      moves := [m];
      var b' := Apply(b, m);
      assert moves[1..] == [] && After(b', []) == b' && IsRun(b', []);
      assert b'.stream[|b.stream|] == b.relays[r].todo[0];
    } else {
      var m := Publish(r, NotSent);
      ApplyKeepsInv(b, m);
      var b' := Apply(b, m);
      var m' := Mark(r, false);
      ApplyKeepsInv(b', m');
      assert b'.relays[r].todo[k - 1] == b.relays[r].todo[k];
      var rest := HeldCanBeSent(Apply(b', m'), r, k - 1);
      moves := [m'] + rest;
      assert moves[1..] == rest;
      moves := [m] + moves;
    }
  }

  ghost predicate CanBeSent(b: Outbox, id: EventId) {
    exists moves :: IsRun(b, moves) && id in After(b, moves).stream
  }

  lemma SendableCanBeSent(b: Outbox, id: EventId) returns (moves: seq<Move>)
    requires Inv(b) && Sendable(b, id)
    ensures IsRun(b, moves) && id in After(b, moves).stream
  {
    if id in b.stream {
      moves := [];
    } else if Held(b, id) {
      var r :| 0 <= r < |b.relays| && id in b.relays[r].todo;
      var k :| 0 <= k < |b.relays[r].todo| && b.relays[r].todo[k] == id;
      moves := HeldCanBeSent(b, r, k);
    } else {
      var m := Fetch([id]);
      ApplyKeepsInv(b, m);
      assert Apply(b, m).relays[|b.relays|].todo == [id];
      var rest := HeldCanBeSent(Apply(b, m), |b.relays|, 0);
      moves := [m] + rest;
      assert moves[1..] == rest;
    }
  }

  /** An event that was created can still get a stream entry exactly when it is on the stream, held by a relay, or due. */
  lemma CanBeSentIff(b: Outbox, id: EventId)
    requires Inv(b) && id in b.created
    ensures CanBeSent(b, id) <==> Sendable(b, id)
  {
    if Sendable(b, id) {
      var moves := SendableCanBeSent(b, id);
    } else if CanBeSent(b, id) {
      var moves :| IsRun(b, moves) && id in After(b, moves).stream;
      UnsendableRun(b, moves, id);
    }
  }

  // ----- which events can be put on the stream once more -----

  function Copies(b: Outbox, id: EventId): nat {
    multiset(b.stream)[id]
  }

  /** A relay is about to record a failed publish, and that would leave the event pending with retries to spare. */
  ghost predicate Reopening(b: Outbox, id: EventId) {
    && id in b.rows && !UsedUp(b.rows[id].retries + 1, b.policy)
    && exists r :: 0 <= r < |b.relays| && b.relays[r].pc == ToMarkFailed(id)
  }

  ghost predicate Resendable(b: Outbox, id: EventId) {
    Held(b, id) || Due(b.rows, id, b.policy) || Reopening(b, id)
  }

  lemma SettledStays(b: Outbox, m: Move, id: EventId)
    requires Inv(b) && id in b.created && !Resendable(b, id) && Enabled(b, m)
    ensures var b' := Apply(b, m); id in b'.created && !Held(b', id) && Copies(b', id) == Copies(b, id)
  {
    var b' := Apply(b, m);
    assert forall r | 0 <= r < |b.relays| :: id !in b.relays[r].todo;
    forall r | 0 <= r < |b'.relays|
      ensures id !in b'.relays[r].todo
    {
      if m.Fetch? && r == |b.relays| {
        assert forall i | 0 <= i < |m.batch| :: m.batch[i] != id;
      } else {
        assert id !in b.relays[r].todo;
      }
    }
    if m.Publish? {
      assert b.relays[m.relay].todo[0] in b.relays[m.relay].todo;
    }
  }

  /** Whatever is recorded late for a settled event leaves it settled. */
  lemma SettledIsNotReopened(b: Outbox, m: Move, id: EventId)
    requires Inv(b) && id in b.created && !Resendable(b, id) && Enabled(b, m)
    ensures var b' := Apply(b, m); !Due(b'.rows, id, b'.policy) && !Reopening(b', id)
  {
  }

  lemma {:induction false} SettledRun(b: Outbox, moves: seq<Move>, id: EventId)
    requires Inv(b) && id in b.created && !Resendable(b, id) && IsRun(b, moves)
    ensures Copies(After(b, moves), id) == Copies(b, id) && !Due(After(b, moves).rows, id, b.policy)
    decreases |moves|
  {
    if moves != [] {
      ApplyKeepsInv(b, moves[0]);
      SettledStays(b, moves[0], id);
      SettledIsNotReopened(b, moves[0], id);
      SettledRun(Apply(b, moves[0]), moves[1..], id);
    }
  }

  ghost predicate CanBeSentAgain(b: Outbox, id: EventId) {
    exists moves :: IsRun(b, moves) && Copies(After(b, moves), id) > Copies(b, id)
  }

  lemma DueCanBeSentAgain(b: Outbox, id: EventId) returns (moves: seq<Move>)
    requires Inv(b) && Due(b.rows, id, b.policy)
    ensures IsRun(b, moves) && Copies(After(b, moves), id) > Copies(b, id)
  {
    var m := Fetch([id]);
    ApplyKeepsInv(b, m);
    assert Apply(b, m).relays[|b.relays|].todo == [id];
    var rest := HeldCanBeSent(Apply(b, m), |b.relays|, 0);
    moves := [m] + rest;
    assert moves[1..] == rest;
  }

  lemma ResendableCanBeSentAgain(b: Outbox, id: EventId) returns (moves: seq<Move>)
    requires Inv(b) && Resendable(b, id)
    ensures IsRun(b, moves) && Copies(After(b, moves), id) > Copies(b, id)
  {
    if Held(b, id) {
      var r :| 0 <= r < |b.relays| && id in b.relays[r].todo;
      var k :| 0 <= k < |b.relays[r].todo| && b.relays[r].todo[k] == id;
      moves := HeldCanBeSent(b, r, k);
    } else if Due(b.rows, id, b.policy) {
      moves := DueCanBeSentAgain(b, id);
    } else {
      var r :| 0 <= r < |b.relays| && b.relays[r].pc == ToMarkFailed(id);
      var m := Mark(r, true);
      ApplyKeepsInv(b, m);
      var rest := DueCanBeSentAgain(Apply(b, m), id);
      moves := [m] + rest;
      assert moves[1..] == rest;
    }
  }

  /**
   In any reachable state, an event can be put on the stream once more exactly when a relay
   holds it, it is due, or a relay is about to record a failure that makes it due again.
   */
  lemma CanBeSentAgainIff(b: Outbox, id: EventId)
    requires Inv(b) && id in b.created
    ensures CanBeSentAgain(b, id) <==> Resendable(b, id)
  {
    if Resendable(b, id) {
      var moves := ResendableCanBeSentAgain(b, id);
    } else if CanBeSentAgain(b, id) {
      var moves :| IsRun(b, moves) && Copies(After(b, moves), id) > Copies(b, id);
      SettledRun(b, moves, id);
    }
  }

  /** Nobody but relay `r` has the event in hand. */
  ghost predicate OnlyWith(b: Outbox, r: nat, id: EventId) {
    && !Held(b, id)
    && forall q | 0 <= q < |b.relays| && q != r :: b.relays[q].pc != ToMarkFailed(id)
  }

  /** Once a relay that alone has the event in hand has marked it published, no run fetches or sends it again. */
  lemma MarkedIsSentNoMore(b: Outbox, r: nat, id: EventId, moves: seq<Move>)
    requires Inv(b) && id in b.rows && r < |b.relays| && b.relays[r].pc == ToMarkPublished(id) && OnlyWith(b, r, id)
    requires IsRun(Apply(b, Mark(r, true)), moves)
    ensures var b' := Apply(b, Mark(r, true));
            && b'.rows[id] == Row(Published, b.rows[id].retries)
            && Copies(After(b', moves), id) == Copies(b, id) && !Due(After(b', moves).rows, id, b.policy)
  {
    var b' := Apply(b, Mark(r, true));
    ApplyKeepsInv(b, Mark(r, true));
    assert forall q | 0 <= q < |b'.relays| :: id !in b.relays[q].todo && b'.relays[q].todo == b.relays[q].todo;
    SettledRun(b', moves, id);
  }

  ghost predicate Reachable(policy: Policy, b: Outbox) {
    exists moves :: IsRun(Init(policy), moves) && After(Init(policy), moves) == b
  }

  lemma ReachableStep(policy: Policy, b: Outbox, m: Move)
    requires Reachable(policy, b) && Enabled(b, m)
    ensures Reachable(policy, Apply(b, m))
  {
    var moves :| IsRun(Init(policy), moves) && After(Init(policy), moves) == b;
    var d := Apply(b, m);
    assert [m][1..] == [] && IsRun(d, []) && After(d, []) == d;
    assert IsRun(b, [m]) && After(b, [m]) == d;
    RunsCompose(Init(policy), moves, [m]);
  }

  lemma TwoHoldIt(id: EventId, policy: Policy) returns (b: Outbox)
    requires policy.maxRetries > 0
    ensures Reachable(policy, b)
    ensures b == Outbox(policy, {id}, map[id := Row(Pending, 0)], [], [Relay(AtNext, [id]), Relay(AtNext, [id])])
  {
    assert IsRun(Init(policy), []) && After(Init(policy), []) == Init(policy);
    ReachableStep(policy, Init(policy), Create(id));
    var b1 := Apply(Init(policy), Create(id));
    ReachableStep(policy, b1, Fetch([id]));
    var b2 := Apply(b1, Fetch([id]));
    ReachableStep(policy, b2, Fetch([id]));
    b := Apply(b2, Fetch([id]));
  }

  /** Two relays have fetched the event; one sends and marks it, and the other's failure makes it due again. */
  lemma LateFailureReopensTheEvent(id: EventId, policy: Policy) returns (b: Outbox)
    requires !UsedUp(1, policy)
    ensures Reachable(policy, b) && b.stream == [id] && Due(b.rows, id, policy) && CanBeSentAgain(b, id)
  {
    var b0 := TwoHoldIt(id, policy);
    ReachableStep(policy, b0, Publish(0, Sent));
    var b1 := Apply(b0, Publish(0, Sent));
    ReachableStep(policy, b1, Mark(0, true));
    var b2 := Apply(b1, Mark(0, true));
    assert b2.rows[id].status.Published?;
    ReachableStep(policy, b2, Publish(1, NotSent));
    var b3 := Apply(b2, Publish(1, NotSent));
    ReachableStep(policy, b3, Mark(1, true));
    b := Apply(b3, Mark(1, true));
    var moves :| IsRun(Init(policy), moves) && After(Init(policy), moves) == b;
    RunKeepsInv(Init(policy), moves);
    CanBeSentAgainIff(b, id);
  }

  /** How many publishes have to fail before an event is given up. */
  function Attempts(policy: Policy): nat {
    if policy.countedFirst && policy.maxRetries > 1 then policy.maxRetries - 1 else policy.maxRetries
  }

  /** One event, after so many failed publishes. */
  function Retried(id: EventId, policy: Policy, failures: nat): Outbox {
    var status := if failures < Attempts(policy) || failures == 0 then Pending else Failed;
    Outbox(policy, {id}, map[id := Row(status, failures)], [], seq(failures, _ => Relay(AtNext, [])))
  }

  lemma {:induction false} RetriedIsReached(id: EventId, policy: Policy, failures: nat) returns (moves: seq<Move>)
    requires failures <= Attempts(policy)
    ensures IsRun(Init(policy), moves) && After(Init(policy), moves) == Retried(id, policy, failures)
  {
    if failures == 0 {
      moves := [Create(id)];
      assert moves[1..] == [];
      assert Apply(Init(policy), Create(id)) == Retried(id, policy, 0);
    } else {
      var before := RetriedIsReached(id, policy, failures - 1);
      var last := FailAgain(id, policy, failures - 1);
      RunsCompose(Init(policy), before, last);
      moves := before + last;
    }
  }

  lemma FailAgain(id: EventId, policy: Policy, failures: nat) returns (moves: seq<Move>)
    requires failures < Attempts(policy)
    ensures IsRun(Retried(id, policy, failures), moves)
    ensures After(Retried(id, policy, failures), moves) == Retried(id, policy, failures + 1)
  {
    var b', next := Retried(id, policy, failures), Retried(id, policy, failures + 1);
    moves, b' := FailOnce(b', id);
    assert b'.rows == next.rows && b'.relays == next.relays;
  }

  /**
   The outbox does lose an event, for every policy: after that many failed publishes, and no
   sooner, no run ever puts it on the stream.
   */
  lemma FailuresLoseTheEvent(id: EventId, policy: Policy, failures: nat)
    requires failures <= Attempts(policy)
    ensures Reachable(policy, Retried(id, policy, failures))
    ensures CanBeSent(Retried(id, policy, failures), id) <==> failures < Attempts(policy)
  {
    var b := Retried(id, policy, failures);
    var moves := RetriedIsReached(id, policy, failures);
    RunKeepsInv(Init(policy), moves);
    CanBeSentIff(b, id);
  }

  /** Fetch one event, fail to publish it, record the failure. */
  lemma FailOnce(b: Outbox, id: EventId) returns (moves: seq<Move>, b': Outbox)
    requires Due(b.rows, id, b.policy)
    requires forall r | 0 <= r < |b.relays| :: b.relays[r].todo == []
    ensures IsRun(b, moves) && b' == After(b, moves)
    ensures b' == b.(rows := MarkFailed(b.rows, id, b.policy), relays := b.relays + [Relay(AtNext, [])])
  {
    var m0, m1, m2 := Fetch([id]), Publish(|b.relays|, NotSent), Mark(|b.relays|, true);
    moves := [m0, m1, m2];
    var s1 := Apply(b, m0);
    assert s1.relays[|b.relays|] == Relay(AtNext, [id]);
    var s2 := Apply(s1, m1);
    assert s2.relays[|b.relays|] == Relay(ToMarkFailed(id), []);
    var s3 := Apply(s2, m2);
    assert s3.relays == b.relays + [Relay(AtNext, [])];
    b' := s3;
    assert moves[1..] == [m1, m2] && [m1, m2][1..] == [m2] && [m2][1..] == [];
    assert IsRun(s3, []) && After(s3, []) == s3;
    assert IsRun(s2, [m2]) && After(s2, [m2]) == s3;
    assert IsRun(s1, [m1, m2]) && After(s1, [m1, m2]) == s3;
  }

  lemma {:induction false} RunsCompose(b: Outbox, first: seq<Move>, second: seq<Move>)
    requires IsRun(b, first) && IsRun(After(b, first), second)
    ensures IsRun(b, first + second) && After(b, first + second) == After(After(b, first), second)
    decreases |first|
  {
    if first == [] {
      assert first + second == second;
    } else {
      assert (first + second)[1..] == first[1..] + second;
      RunsCompose(Apply(b, first[0]), first[1..], second);
    }
  }

  // ----- one call of Process -----

  /** How the two calls for one event turn out. */
  datatype Outcome = Outcome(sending: Sending, marked: bool)

  /** The stream and rows after the first `n` events of a batch. */
  function StreamAfter(stream: seq<EventId>, batch: seq<EventId>, outcomes: seq<Outcome>, n: nat): seq<EventId>
    requires n <= |batch| == |outcomes|
  {
    if n == 0 then stream
    else StreamAfter(stream, batch, outcomes, n - 1) + (if outcomes[n - 1].sending.NotSent? then [] else [batch[n - 1]])
  }

  function RowsAfter(rows: Rows, policy: Policy, batch: seq<EventId>, outcomes: seq<Outcome>, n: nat): Rows
    requires n <= |batch| == |outcomes|
  {
    if n == 0 then rows
    else RowAfterOne(RowsAfter(rows, policy, batch, outcomes, n - 1), policy, batch[n - 1], outcomes[n - 1])
  }

  function RowAfterOne(rows: Rows, policy: Policy, id: EventId, o: Outcome): Rows {
    if !o.marked then rows else if o.sending.Sent? then MarkPublished(rows, id) else MarkFailed(rows, id, policy)
  }

  /** What the two calls for an event leave of its row. */
  ghost predicate EndsAs(before: Row, o: Outcome, policy: Policy, after: Row) {
    if !o.marked then after == before
    else if o.sending.Sent? then after.status.Published? && after.retries == before.retries
    else
      var counted := before.retries + (if policy.countedFirst then 2 else 1);
      after.retries == before.retries + 1 && after.status == (if counted >= policy.maxRetries then Failed else Pending)
  }

  /** Each row of a batch is as its own outcome says, and no other row has changed. */
  ghost predicate BatchEndsAs(rows: Rows, policy: Policy, batch: seq<EventId>, outcomes: seq<Outcome>, n: nat, after: Rows)
    requires n <= |batch| == |outcomes|
  {
    && after.Keys == rows.Keys
    && (forall i | 0 <= i < n && batch[i] in rows :: EndsAs(rows[batch[i]], outcomes[i], policy, after[batch[i]]))
    && (forall id | id in rows && id !in batch[..n] :: after[id] == rows[id])
  }

  lemma {:induction false} RowsAfterEndsAs(rows: Rows, policy: Policy, batch: seq<EventId>, outcomes: seq<Outcome>, n: nat)
    requires n <= |batch| == |outcomes| && forall i, j | 0 <= i < j < |batch| :: batch[i] != batch[j]
    ensures BatchEndsAs(rows, policy, batch, outcomes, n, RowsAfter(rows, policy, batch, outcomes, n))
  {
    if n > 0 {
      RowsAfterEndsAs(rows, policy, batch, outcomes, n - 1);
      var before := RowsAfter(rows, policy, batch, outcomes, n - 1);
      EndsOneMore(rows, policy, batch, outcomes, n, before, RowAfterOne(before, policy, batch[n - 1], outcomes[n - 1]));
    }
  }

  lemma EndsOneMore(rows: Rows, policy: Policy, batch: seq<EventId>, outcomes: seq<Outcome>, n: nat, before: Rows, after: Rows)
    requires 0 < n <= |batch| == |outcomes| && forall i, j | 0 <= i < j < |batch| :: batch[i] != batch[j]
    requires BatchEndsAs(rows, policy, batch, outcomes, n - 1, before)
    requires after == RowAfterOne(before, policy, batch[n - 1], outcomes[n - 1])
    ensures BatchEndsAs(rows, policy, batch, outcomes, n, after)
  {
    assert batch[..n] == batch[..n - 1] + [batch[n - 1]];
    assert batch[n - 1] !in batch[..n - 1];
    OneRowEndsAs(before, policy, batch[n - 1], outcomes[n - 1]);
  }

  lemma OneRowEndsAs(before: Rows, policy: Policy, id: EventId, o: Outcome)
    ensures var after := RowAfterOne(before, policy, id, o);
            && after.Keys == before.Keys && (id in before ==> EndsAs(before[id], o, policy, after[id]))
            && forall other | other in before && other != id :: after[other] == before[other]
  {
  }

  datatype LockReply = Acquired | Busy | LockError

  class RelayProcessor {
    const policy: Policy
    var rows: Rows
    var stream: seq<EventId>

    constructor (policy: Policy)
      ensures rows == map[] && stream == [] && this.policy == policy
    {
      this.policy, rows, stream := policy, map[], [];
    }

    /**
     One poll. `fetched` is what GetPendingEvents returned, None when it failed; `outcomes`
     says how each publish and mark turns out, since both happen outside the process.
     */
    method Process(lock: LockReply, fetched: seq<EventId>, fetchFailed: bool, outcomes: seq<Outcome>) returns (ok: bool)
      requires |outcomes| == |fetched| && forall i | 0 <= i < |fetched| :: Due(rows, fetched[i], policy)
      modifies this
      ensures ok <==> lock.Busy? || (lock.Acquired? && !fetchFailed)
      ensures !lock.Acquired? || fetchFailed ==> rows == old(rows) && stream == old(stream)
      ensures lock.Acquired? && !fetchFailed ==>
                && rows == RowsAfter(old(rows), policy, fetched, outcomes, |fetched|)
                && stream == StreamAfter(old(stream), fetched, outcomes, |fetched|)
      ensures lock.Acquired? && !fetchFailed && (forall i, j | 0 <= i < j < |fetched| :: fetched[i] != fetched[j]) ==>
                && BatchEndsAs(old(rows), policy, fetched, outcomes, |fetched|, rows)
                && forall i | 0 <= i < |fetched| && outcomes[i] == Outcome(Sent, true) :: !Due(rows, fetched[i], policy)
    {
      match lock {
        case Busy => return true;
        case LockError => return false;
        case Acquired =>
      }
      if fetchFailed {
        return false;
      }
      for i := 0 to |fetched|
        invariant rows == RowsAfter(old(rows), policy, fetched, outcomes, i)
        invariant stream == StreamAfter(old(stream), fetched, outcomes, i)
      {
        var id := fetched[i];
        if !outcomes[i].sending.NotSent? {
          stream := stream + [id];
        }
        if !outcomes[i].sending.Sent? {
          if outcomes[i].marked {
            rows := MarkFailed(rows, id, policy);
          }
          continue;
        }
        if outcomes[i].marked {
          rows := MarkPublished(rows, id);
        }
      }
      if forall i, j | 0 <= i < j < |fetched| :: fetched[i] != fetched[j] {
        RowsAfterEndsAs(old(rows), policy, fetched, outcomes, |fetched|);
      }
      return true;
    }
  }

  function ProcessMoves(r: nat, outcomes: seq<Outcome>): seq<Move> {
    if outcomes == [] then []
    else [Publish(r, outcomes[0].sending), Mark(r, outcomes[0].marked)] + ProcessMoves(r, outcomes[1..])
  }

  /** The publish and the mark of one event, as two moves of relay `r`. */
  lemma OneEvent(b: Outbox, r: nat, todo: seq<EventId>, o: Outcome) returns (b': Outbox)
    requires r < |b.relays| && todo != [] && b.relays[r] == Relay(AtNext, todo)
    ensures Enabled(b, Publish(r, o.sending)) && Enabled(Apply(b, Publish(r, o.sending)), Mark(r, o.marked))
    ensures b' == Apply(Apply(b, Publish(r, o.sending)), Mark(r, o.marked))
    ensures b' == Outbox(b.policy, b.created,
                         if !o.marked then b.rows
                         else if o.sending.Sent? then MarkPublished(b.rows, todo[0])
                         else MarkFailed(b.rows, todo[0], b.policy),
                         b.stream + (if o.sending.NotSent? then [] else [todo[0]]),
                         b.relays[r := Relay(AtNext, todo[1..])])
  {
    var b1 := Apply(b, Publish(r, o.sending));
    assert b1.relays[r].todo == todo[1..];
    b' := Apply(b1, Mark(r, o.marked));
    assert b'.relays == b.relays[r := Relay(AtNext, todo[1..])];
    assert b.stream + [] == b.stream;
  }

  lemma TwoMoves(b: Outbox, m0: Move, m1: Move, rest: seq<Move>)
    requires Enabled(b, m0) && Enabled(Apply(b, m0), m1) && IsRun(Apply(Apply(b, m0), m1), rest)
    ensures IsRun(b, [m0, m1] + rest) && After(b, [m0, m1] + rest) == After(Apply(Apply(b, m0), m1), rest)
  {
    var moves := [m0, m1] + rest;
    assert moves[1..] == [m1] + rest && moves[1..][1..] == rest;
  }

  lemma {:induction false} ProcessIsRunFrom(start: Outbox, b: Outbox, batch: seq<EventId>, outcomes: seq<Outcome>, n: nat)
    requires n <= |batch| == |outcomes|
    requires b == start.(rows := RowsAfter(start.rows, start.policy, batch, outcomes, n),
                         stream := StreamAfter(start.stream, batch, outcomes, n),
                         relays := start.relays + [Relay(AtNext, batch[n..])])
    ensures var moves := ProcessMoves(|start.relays|, outcomes[n..]);
            IsRun(b, moves) &&
            After(b, moves) == start.(rows := RowsAfter(start.rows, start.policy, batch, outcomes, |batch|),
                                      stream := StreamAfter(start.stream, batch, outcomes, |batch|),
                                      relays := start.relays + [Relay(AtNext, [])])
    decreases |batch| - n
  {
    var r := |start.relays|;
    if n == |batch| {
      assert outcomes[n..] == [] && batch[n..] == [];
    } else {
      assert outcomes[n..][0] == outcomes[n] && outcomes[n..][1..] == outcomes[n + 1..];
      assert batch[n..][0] == batch[n] && batch[n..][1..] == batch[n + 1..];
      var b' := OneEvent(b, r, batch[n..], outcomes[n]);
      assert b'.relays == start.relays + [Relay(AtNext, batch[n + 1..])];
      ProcessIsRunFrom(start, b', batch, outcomes, n + 1);
      TwoMoves(b, Publish(r, outcomes[n].sending), Mark(r, outcomes[n].marked), ProcessMoves(r, outcomes[n + 1..]));
    }
  }

  /** A call of Process does what one relay does in a run of its own. */
  lemma ProcessIsRun(b: Outbox, batch: seq<EventId>, outcomes: seq<Outcome>)
    requires |outcomes| == |batch| && forall i | 0 <= i < |batch| :: Due(b.rows, batch[i], b.policy)
    ensures var moves := [Fetch(batch)] + ProcessMoves(|b.relays|, outcomes);
            IsRun(b, moves) &&
            After(b, moves) == b.(rows := RowsAfter(b.rows, b.policy, batch, outcomes, |batch|),
                                  stream := StreamAfter(b.stream, batch, outcomes, |batch|),
                                  relays := b.relays + [Relay(AtNext, [])])
  {
    var b1 := Apply(b, Fetch(batch));
    assert batch[0..] == batch && outcomes[0..] == outcomes;
    ProcessIsRunFrom(b, b1, batch, outcomes, 0);
    var moves := [Fetch(batch)] + ProcessMoves(|b.relays|, outcomes);
    assert moves[1..] == ProcessMoves(|b.relays|, outcomes);
  }
}
