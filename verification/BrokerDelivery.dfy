/** What publishing adds up to over the whole broker: deliveries, drops and the events the connections accepted. */
module BrokerDelivery {
  import opened Wrappers
  import opened Registry
  import opened BrokerMachine
  import opened BrokerSafety
  import opened BrokerProgress

  function Delivered(threads: seq<Thread>): nat {
    if threads == [] then 0 else threads[0].delivered + Delivered(threads[1..])
  }

  /** How many events all connections together have accepted. */
  ghost function Accepted(links: map<string, Link>): nat {
    if links == map[] then 0
    else
      var id :| id in links;
      |links[id].accepted| + Accepted(links - {id})
  }

  /** It does not matter in which order the connections are taken. */
  lemma {:induction false} AcceptedWithout(links: map<string, Link>, id: string)
    requires id in links
    ensures Accepted(links) == |links[id].accepted| + Accepted(links - {id})
    decreases |links|
  {
    var first :| first in links && Accepted(links) == |links[first].accepted| + Accepted(links - {first});
    if first != id {
      AcceptedWithout(links - {first}, id);
      AcceptedWithout(links - {id}, first);
      assert links - {first} - {id} == links - {id} - {first};
    }
  }

  lemma AcceptedUpdate(links: map<string, Link>, id: string, l: Link)
    ensures Accepted(links[id := l]) == Accepted(links - {id}) + |l.accepted|
  {
    AcceptedWithout(links[id := l], id);
    assert links[id := l] - {id} == links - {id};
  }

  lemma {:induction false} AcceptedSame(links: map<string, Link>, others: map<string, Link>)
    requires links.Keys == others.Keys && forall id | id in links :: others[id].accepted == links[id].accepted
    ensures Accepted(links) == Accepted(others)
    decreases |links|
  {
    if links == map[] {
      assert others == map[];
    } else {
      var id :| id in links;
      AcceptedWithout(links, id);
      AcceptedWithout(others, id);
      AcceptedSame(links - {id}, others - {id});
    }
  }

  lemma {:induction false} DeliveredUpdate(threads: seq<Thread>, t: nat, th: Thread)
    requires t < |threads|
    ensures Delivered(threads[t := th]) == Delivered(threads) - threads[t].delivered + th.delivered
    decreases |threads|
  {
    if t > 0 {
      assert threads[t := th][1..] == threads[1..][t - 1 := th];
      DeliveredUpdate(threads[1..], t - 1, th);
    } else {
      assert threads[t := th][1..] == threads[1..];
    }
  }

  lemma {:induction false} DeliveredSpawn(threads: seq<Thread>, th: Thread)
    ensures Delivered(threads + [th]) == Delivered(threads) + th.delivered
    decreases |threads|
  {
    if threads == [] {
      assert threads + [th] == [th];
    } else {
      assert (threads + [th])[1..] == threads[1..] + [th];
      DeliveredSpawn(threads[1..], th);
    }
  }

  ghost predicate DeliveriesRight(w: World) {
    Delivered(w.threads) == Accepted(w.links)
  }

  /** A delivery is one event accepted by one connection. */
  lemma PushCounts(w: World, t: Tid, w': World)
    requires DeliveriesRight(w) && t < |w.threads| && StepPush(w, t) == Some(w')
    ensures DeliveriesRight(w')
  {
    var th := w.threads[t];
    var id := th.pc.id;
    DeliveredUpdate(w.threads, t, w'.threads[t]);
    assert w'.threads == w.threads[t := w'.threads[t]];
    AcceptedWithout(w.links, id);
    AcceptedUpdate(w.links, id, w'.links[id]);
    if w'.links != w.links {
      assert w'.links == w.links[id := w'.links[id]];
    }
  }

  lemma StepCounts(w: World, t: Tid, order: seq<string>, w': World)
    requires DeliveriesRight(w) && t < |w.threads| && ThreadKnows(w, t) && LinksMatch(w) && RegistryRight(w)
    requires Step(w, t, order) == Some(w')
    ensures DeliveriesRight(w')
  {
    if w.threads[t].pc.Push? {
      PushCounts(w, t, w');
    } else {
      StepIsEffective(w, t, order, w');
      OthersDeliverNothing(w, t, order, w');
      QuietStepCounts(w, t, w');
    }
  }

  lemma QuietStepCounts(w: World, t: Tid, w': World)
    requires DeliveriesRight(w) && Moves(w, w', t) && DeliversNothing(w, w', t)
    ensures DeliveriesRight(w')
  {
    assert w'.threads == w.threads[t := w'.threads[t]];
    DeliveredUpdate(w.threads, t, w'.threads[t]);
    forall id | id in w.links
      ensures w'.links[id].accepted == w.links[id].accepted
    {
      assert SameQueue(w.links[id], w'.links[id]);
    }
    AcceptedSame(w.links, w'.links);
  }

  lemma SpawnCounts(w: World, pc: Pc, todo: seq<Task>)
    requires DeliveriesRight(w)
    ensures DeliveriesRight(Spawn(w, pc, todo))
  {
    DeliveredSpawn(w.threads, Thread(pc, todo, 0, 0, 0));
  }

  lemma LinkCounts(w: World, id: string, l: Link)
    requires DeliveriesRight(w) && |l.accepted| == if id in w.links then |w.links[id].accepted| else 0
    ensures DeliveriesRight(SetLink(w, id, l))
  {
    AcceptedUpdate(w.links, id, l);
    if id in w.links {
      AcceptedWithout(w.links, id);
    } else {
      assert w.links - {id} == w.links;
    }
  }

  lemma OtherMovesCount(w: World, m: Move)
    requires DeliveriesRight(w) && !m.Run? && Apply(w, m).Some?
    ensures DeliveriesRight(Apply(w, m).value)
  {
    var w' := Apply(w, m).value;
    match m {
      case CallRegister(c, capacity) =>
        LinkCounts(w, c.id, FreshLink(capacity, |w.threads|));
        SpawnCounts(SetLink(w, c.id, FreshLink(capacity, |w.threads|)), RegTest(c), []);
      case CallUnregister(id) => SpawnCounts(w, UnregLock(id), []);
      case CallSnapshot(why) => SpawnCounts(w, SnapLock(why), []);
      case CallDrain => SpawnCounts(w, DrainSwap, []);
      case LoopTake(id) => LinkCounts(w, id, w'.links[id]);
      case LoopWrote(id) => LinkCounts(w, id, w'.links[id]);
      case LoopExit(id) =>
        LinkCounts(w, id, w'.links[id]);
        SpawnCounts(SetLink(w, id, w'.links[id]), Next, [CloseTask(id)]);
    }
  }

  lemma {:induction false} RunCounts(w: World, moves: seq<Move>)
    requires Inv(w) && DeliveriesRight(w) && After(w, moves).Some?
    ensures DeliveriesRight(After(w, moves).value)
    decreases |moves|
  {
    if moves != [] {
      var m, w' := moves[0], Apply(w, moves[0]).value;
      ApplyKeepsInv(w, m);
      if m.Run? {
        assert ThreadKnows(w, m.t);
        StepCounts(w, m.t, m.order, w');
      } else {
        OtherMovesCount(w, m);
      }
      RunCounts(w', moves[1..]);
    }
  }

  /**
   A publish that has returned delivered to, or kicked, every connection of its snapshot; the
   dropped counter adds the kicks up; and the deliveries of all publishes, returned or not, are
   the events that the connections have accepted.
   */
  lemma PublishAccounts(max: nat, w: World)
    requires Reachable(max, w)
    ensures forall t | 0 <= t < |w.threads| && w.threads[t].pc.Returned? ::
              w.threads[t].snapshot == w.threads[t].delivered + w.threads[t].kicked
    ensures w.dropped == Kicked(w.threads)
    ensures Delivered(w.threads) == Accepted(w.links)
  {
    ReachablePublishInv(max, w);
    forall t | 0 <= t < |w.threads| && w.threads[t].pc.Returned?
      ensures w.threads[t].snapshot == w.threads[t].delivered + w.threads[t].kicked
    {
      assert ThreadKnows(w, t) && AccountsRight(w.threads[t]);
    }
    var moves :| After(Init(max), moves) == Some(w);
    InitIsRight(max);
    RunCounts(Init(max), moves);
  }

  // ----- whom a call is about -----

  /** The connections a snapshot is taken of, by their fields: all, those of a subject, or those of a channel. */
  predicate Concerns(why: Purpose, c: Info) {
    match why
    case Drain => true
    case Revoke(subject) => OnSubject(c, subject)
    case ToSubject(subject, _) => OnSubject(c, subject)
    case ToChannel(channel, _) => OnChannel(c, channel)
  }

  /** What is to be done with one of them: closing it, or handing it the event, unless that is nil. */
  predicate IsPlanned(why: Purpose, id: string, todo: seq<Task>) {
    match why
    case Drain => CloseTask(id) in todo
    case Revoke(_) => CloseTask(id) in todo
    case ToSubject(_, evt) => evt.None? || EnqueueTask(id, evt.value) in todo
    case ToChannel(_, evt) => evt.None? || EnqueueTask(id, evt.value) in todo
  }

  lemma SelectedByFields(reg: Registry<()>, why: Purpose)
    requires Agrees(reg)
    ensures Selected(reg, why).Keys == set id | id in reg.conns && Concerns(why, reg.conns[id])
  {
    match why
    case Drain =>
    case Revoke(subject) => SubjectBucket(reg, subject);
    case ToSubject(subject, _) => SubjectBucket(reg, subject);
    case ToChannel(channel, _) => ChannelBucket(reg, channel);
  }

  /**
   In every reachable state, a call that takes its snapshot will do its work with exactly the
   registered connections it concerns, each once.
   */
  lemma SnapshotIsOfThoseConcerned(max: nat, w: World, t: Tid, order: seq<string>, w': World)
    requires Reachable(max, w) && t < |w.threads| && w.threads[t].pc.SnapRead? && Step(w, t, order) == Some(w')
    ensures var why, todo := w.threads[t].pc.why, w'.threads[t].todo;
            && (forall id | id in w.reg.conns && Concerns(why, w.reg.conns[id]) :: IsPlanned(why, id, todo))
            && (forall i | 0 <= i < |todo| :: todo[i].id in w.reg.conns && Concerns(why, w.reg.conns[todo[i].id]))
            && (forall i, j | 0 <= i < j < |todo| :: todo[i].id != todo[j].id)
  {
    IndexAgreement(max, w);
    var why := w.threads[t].pc.why;
    SelectedByFields(w.reg, why);
    assert w'.threads[t].todo == Plan(why, order);
    PlanIsOfThoseListed(why, order);
  }

  lemma PlanIsOfThoseListed(why: Purpose, order: seq<string>)
    ensures var todo := Plan(why, order);
            && (forall id | id in order :: IsPlanned(why, id, todo))
            && |todo| <= |order| && (forall i | 0 <= i < |todo| :: todo[i].id == order[i])
  {
    var todo := Plan(why, order);
    forall id | id in order
      ensures IsPlanned(why, id, todo)
    {
      var i :| 0 <= i < |order| && order[i] == id;
      assert todo != [] ==> todo[i] in todo;
    }
  }
}
