/** The relays and the consumers together: what the relays append is what the group reads. */
module EventPipeline {
  import Outbox = OutboxRelay
  import Group = StreamGroup

  datatype Pipeline = Pipeline(outbox: Outbox.Outbox, group: Group.Group)

  datatype Move = Produce(produce: Outbox.Move) | Consume(consume: Group.Move)

  function Init(policy: Outbox.Policy): Pipeline {
    Pipeline(Outbox.Init(policy), Group.INIT)
  }

  predicate Enabled(p: Pipeline, m: Move) {
    match m
    case Produce(x) => Outbox.Enabled(p.outbox, x)
    case Consume(x) => !x.Append? && Group.Enabled(p.group, x)
  }

  function Apply(p: Pipeline, m: Move): Pipeline
    requires Enabled(p, m)
  {
    match m
    case Produce(x) =>
      var outbox := Outbox.Apply(p.outbox, x);
      Pipeline(outbox, if |outbox.stream| > |p.outbox.stream| then Group.Apply(p.group, Group.Append) else p.group)
    case Consume(x) => p.(group := Group.Apply(p.group, x))
  }

  ghost predicate IsRun(p: Pipeline, moves: seq<Move>)
    decreases |moves|
  {
    moves == [] || (Enabled(p, moves[0]) && IsRun(Apply(p, moves[0]), moves[1..]))
  }

  function After(p: Pipeline, moves: seq<Move>): Pipeline
    requires IsRun(p, moves)
    decreases |moves|
  {
    if moves == [] then p else After(Apply(p, moves[0]), moves[1..])
  }

  ghost predicate Inv(p: Pipeline) {
    Outbox.Inv(p.outbox) && Group.Inv(p.group) && p.group.store.appended == |p.outbox.stream|
  }

  lemma ApplyKeepsInv(p: Pipeline, m: Move)
    requires Inv(p) && Enabled(p, m)
    ensures Inv(Apply(p, m))
  {
    match m
    case Produce(x) =>
      Outbox.ApplyKeepsInv(p.outbox, x);
      Group.ApplyKeepsInv(p.group, Group.Append);
    case Consume(x) =>
      Group.ApplyKeepsInv(p.group, x);
  }

  lemma {:induction false} RunKeepsInv(p: Pipeline, moves: seq<Move>)
    requires Inv(p) && IsRun(p, moves)
    ensures Inv(After(p, moves))
    decreases |moves|
  {
    if moves != [] {
      ApplyKeepsInv(p, moves[0]);
      RunKeepsInv(Apply(p, moves[0]), moves[1..]);
    }
  }

  /** Where an entry of the stream is: not delivered, pending, or acknowledged after its handler returned nil. */
  ghost predicate AccountedFor(g: Group.Group, entry: nat) {
    || g.store.delivered <= entry < g.store.appended
    || entry in g.store.pending
    || (entry in g.store.acked && Group.CalledOk(g, entry))
  }

  /** Conservation end to end: every event marked published has a stream entry that is accounted for. */
  lemma PublishedIsAccountedFor(policy: Outbox.Policy, moves: seq<Move>, id: Outbox.EventId) returns (entry: nat)
    requires IsRun(Init(policy), moves)
    requires var rows := After(Init(policy), moves).outbox.rows; id in rows && rows[id].status.Published?
    ensures var p := After(Init(policy), moves);
            && entry < |p.outbox.stream| && p.outbox.stream[entry] == id
            && AccountedFor(p.group, entry)
  {
    RunKeepsInv(Init(policy), moves);
    var stream := After(Init(policy), moves).outbox.stream;
    entry :| 0 <= entry < |stream| && stream[entry] == id;
  }
}
