/** No deadlock, termination of every call, and what publishing does to queues and counters. */
module BrokerProgress {
  import opened Wrappers
  import opened Registry
  import opened BrokerMachine
  import opened BrokerSafety

  // ----- listings of a finite set -----

  lemma {:induction false} ListingExists(ids: set<string>) returns (order: seq<string>)
    ensures Lists(order, ids)
    decreases |ids|
  {
    if ids == {} {
      order := [];
    } else {
      var id :| id in ids;
      var rest := ListingExists(ids - {id});
      order := [id] + rest;
    }
  }

  lemma {:induction false} ListingSize(order: seq<string>, ids: set<string>)
    requires Lists(order, ids)
    ensures |order| == |ids|
    decreases |order|
  {
    if order == [] {
      assert ids == {};
    } else {
      var rest := order[1..];
      forall id | id in ids - {order[0]}
        ensures id in rest
      {
        var i :| 0 <= i < |order| && order[i] == id;
        assert rest[i - 1] == id;
      }
      ListingSize(rest, ids - {order[0]});
    }
  }

  // ----- no deadlock -----

  /** A call that holds the broker lock never waits: in particular it never enters Close. */
  lemma LockHoldersNeverWait(max: nat, w: World, t: Tid)
    requires Reachable(max, w) && t < |w.threads|
    requires HoldsWrite(w.threads[t].pc) || HoldsRead(w.threads[t].pc)
    ensures exists order :: Step(w, t, order).Some?
  {
    ReachableInv(max, w);
    var order := ReadyOrder(w, t);
    HolderSteps(w, t, order);
  }

  lemma HolderSteps(w: World, t: Tid, order: seq<string>)
    requires t < |w.threads| && ThreadsKnow(w) && (HoldsWrite(w.threads[t].pc) || HoldsRead(w.threads[t].pc))
    requires w.threads[t].pc.SnapRead? ==> Lists(order, Selected(w.reg, w.threads[t].pc.why).Keys)
    ensures Step(w, t, order).Some?
  {
    assert ThreadKnows(w, t);
  }

  lemma ReadyOrder(w: World, t: Tid) returns (order: seq<string>)
    requires t < |w.threads|
    ensures w.threads[t].pc.SnapRead? ==> Lists(order, Selected(w.reg, w.threads[t].pc.why).Keys)
  {
    order := [];
    if w.threads[t].pc.SnapRead? {
      order := ListingExists(Selected(w.reg, w.threads[t].pc.why).Keys);
    }
  }

  /** With the lock free, the owner of a once and every call that does not wait for a once can step. */
  lemma UnblockedSteps(w: World, t: Tid, order: seq<string>)
    requires Inv(w) && t < |w.threads| && !w.threads[t].pc.Returned?
    requires LockFree(w) || HoldsWrite(w.threads[t].pc) || HoldsRead(w.threads[t].pc)
    requires w.threads[t].pc.SnapRead? ==> Lists(order, Selected(w.reg, w.threads[t].pc.why).Keys)
    requires w.threads[t].pc.Next? && w.threads[t].todo != [] && w.threads[t].todo[0].CloseTask? ==>
               w.threads[t].todo[0].id in w.links && !w.links[w.threads[t].todo[0].id].once.Running?
    ensures Step(w, t, order).Some?
  {
    assert ThreadKnows(w, t);
  }

  lemma SomeCallSteps(w: World, t: Tid) returns (u: Tid, order: seq<string>)
    requires Inv(w) && t < |w.threads| && !w.threads[t].pc.Returned?
    ensures u < |w.threads| && Step(w, u, order).Some?
  {
    u := t;
    if w.writer.Some? {
      u := w.writer.value;
    } else if w.readers != {} {
      u :| u in w.readers;
    } else if w.threads[t].pc.Next? && w.threads[t].todo != [] && w.threads[t].todo[0].CloseTask? {
      assert ThreadKnows(w, t);
      var id := w.threads[t].todo[0].id;
      if w.links[id].once.Running? {
        u := w.links[id].once.owner;
        assert Closing(w.threads[u].pc) == Some(id);
      }
    }
    order := ReadyOrder(w, u);
    UnblockedSteps(w, u, order);
  }

  /** In every reachable state with a call in progress, some call in progress can take a step. */
  lemma NoDeadlock(max: nat, w: World)
    requires Reachable(max, w)
    requires exists t :: 0 <= t < |w.threads| && !w.threads[t].pc.Returned?
    ensures exists t, order :: 0 <= t < |w.threads| && Step(w, t, order).Some?
  {
    ReachableInv(max, w);
    var t: Tid :| t < |w.threads| && !w.threads[t].pc.Returned?;
    var u, order := SomeCallSteps(w, t);
  }

  /** When no call can take a step any more, a drain that was started has emptied the registry. */
  lemma DrainCompletes(max: nat, w: World)
    requires Reachable(max, w) && w.draining
    requires forall t, order | 0 <= t < |w.threads| :: Step(w, t, order).None?
    ensures Drained(w) && w.reg == Empty()
  {
    ReachableInv(max, w);
    if exists t :: 0 <= t < |w.threads| && !w.threads[t].pc.Returned? {
      NoDeadlock(max, w);
    }
    DrainedMeansEmpty(w);
  }

  // ----- every call returns -----

  function TaskRank(todo: seq<Task>): nat {
    if todo == [] then 0
    else (match todo[0] case CloseTask(_) => 6 case KickTask(_) => 10 case EnqueueTask(_, _) => 12) + TaskRank(todo[1..])
  }

  function PcRank(pc: Pc, links: nat): nat {
    match pc
    case Returned => 0
    case Next => 1
    case RegTest(_) => 6
    case RegLock(_) => 5
    case RegCheck(_) => 4
    case RegInsert(_) => 3
    case RegUnlock => 2
    case UnregLock(_) => 10
    case UnregRemove(_) => 9
    case UnregUnlock(_, _) => 8
    case CloseMark(_) => 6
    case BackLock(_) => 5
    case BackRemove(_) => 4
    case BackUnlock(_) => 3
    case CloseLeave(_) => 2
    case SnapUnlock => 2
    case SnapRead(_) => 3 + 12 * links
    case SnapLock(_) => 4 + 12 * links
    case DrainSwap => 5 + 12 * links
    case Push(_, _) => 12
  }

  function ThreadRank(th: Thread, links: nat): nat {
    PcRank(th.pc, links) + TaskRank(th.todo)
  }

  function Work(threads: seq<Thread>, links: nat): nat {
    if threads == [] then 0 else ThreadRank(threads[0], links) + Work(threads[1..], links)
  }

  lemma {:induction false} TaskRankAppend(a: seq<Task>, b: seq<Task>)
    ensures TaskRank(a + b) == TaskRank(a) + TaskRank(b)
    decreases |a|
  {
    if a == [] {
      assert a + b == b;
    } else {
      assert (a + b)[1..] == a[1..] + b;
      TaskRankAppend(a[1..], b);
    }
  }

  lemma {:induction false} TaskRankBound(todo: seq<Task>)
    ensures TaskRank(todo) <= 12 * |todo|
    decreases |todo|
  {
    if todo != [] {
      TaskRankBound(todo[1..]);
    }
  }

  lemma {:induction false} WorkUpdate(threads: seq<Thread>, t: nat, th: Thread, links: nat)
    requires t < |threads|
    ensures Work(threads[t := th], links) == Work(threads, links) - ThreadRank(threads[t], links) + ThreadRank(th, links)
    decreases |threads|
  {
    if t > 0 {
      assert threads[t := th][1..] == threads[1..][t - 1 := th];
      WorkUpdate(threads[1..], t - 1, th, links);
    } else {
      assert threads[t := th][1..] == threads[1..];
    }
  }

  lemma PlanSize(w: World, why: Purpose, order: seq<string>)
    requires LinksMatch(w) && RegistryRight(w) && Lists(order, Selected(w.reg, why).Keys)
    ensures |Plan(why, order)| <= |order| <= |w.links|
  {
    var ids := Selected(w.reg, why).Keys;
    forall id | id in ids
      ensures id in w.links.Keys
    {
      if why.Revoke? || why.ToSubject? {
        assert id in Bucket(w.reg.bySubject, why.subject);
      } else if why.ToChannel? {
        assert id in Bucket(w.reg.byChannel, why.channel);
      }
      assert id in w.reg.conns && KnownLink(w, id);
    }
    ListingSize(order, ids);
    SubsetSize(ids, w.links.Keys);
    assert |w.links| == |w.links.Keys|;
  }

  lemma SubsetSize(a: set<string>, b: set<string>)
    requires a <= b
    ensures |a| <= |b|
  {
    assert b == a + (b - a);
  }

  /** What one step does to the calling thread: it gets closer to its return and its publish counters stay right. */
  predicate LocalEffect(th: Thread, th': Thread, kicks: int, links: nat) {
    && ThreadRank(th', links) < ThreadRank(th, links)
    && (AccountsRight(th) ==> AccountsRight(th'))
    && th'.kicked - th.kicked == kicks
  }

  lemma EnqueueLocal(w: World, t: Tid, w': World)
    requires t < |w.threads| && w.threads[t].pc.Next? && BeginTask(w, t) == Some(w')
    requires w.threads[t].todo != [] && w.threads[t].todo[0].EnqueueTask?
    ensures |w'.threads| == |w.threads| && LocalEffect(w.threads[t], w'.threads[t], w'.dropped - w.dropped, |w.links|)
  {
    var todo := w.threads[t].todo;
    TaskRankAppend(todo[1..], [KickTask(todo[0].id)]);
    PendingAppend(todo[1..], [KickTask(todo[0].id)]);
  }

  lemma TaskLocal(w: World, t: Tid, w': World)
    requires t < |w.threads| && w.threads[t].pc.Next? && BeginTask(w, t) == Some(w')
    ensures |w'.threads| == |w.threads| && LocalEffect(w.threads[t], w'.threads[t], w'.dropped - w.dropped, |w.links|)
  {
    if w.threads[t].todo != [] {
      match w.threads[t].todo[0]
      case EnqueueTask(_, _) => EnqueueLocal(w, t, w');
      case CloseTask(_) => CloseTaskLocal(w, t, w');
      case KickTask(_) => KickLocal(w, t, w');
    }
  }

  lemma CloseTaskLocal(w: World, t: Tid, w': World)
    requires t < |w.threads| && w.threads[t].pc.Next? && BeginTask(w, t) == Some(w')
    requires w.threads[t].todo != [] && w.threads[t].todo[0].CloseTask?
    ensures |w'.threads| == |w.threads| && LocalEffect(w.threads[t], w'.threads[t], w'.dropped - w.dropped, |w.links|)
  {
  }

  lemma KickLocal(w: World, t: Tid, w': World)
    requires t < |w.threads| && w.threads[t].pc.Next? && BeginTask(w, t) == Some(w')
    requires w.threads[t].todo != [] && w.threads[t].todo[0].KickTask?
    ensures |w'.threads| == |w.threads| && LocalEffect(w.threads[t], w'.threads[t], w'.dropped - w.dropped, |w.links|)
  {
  }

  lemma UnregisterLocal(w: World, t: Tid, w': World)
    requires t < |w.threads| && StepUnregister(w, t) == Some(w')
    ensures |w'.threads| == |w.threads| && LocalEffect(w.threads[t], w'.threads[t], w'.dropped - w.dropped, |w.links|)
  {
    var th := w.threads[t];
    if th.pc.UnregUnlock? {
      TaskRankAppend([CloseTask(th.pc.id)], th.todo);
      PendingAppend([CloseTask(th.pc.id)], th.todo);
    }
  }

  lemma PushLocal(w: World, t: Tid, w': World)
    requires t < |w.threads| && StepPush(w, t) == Some(w')
    ensures |w'.threads| == |w.threads| && LocalEffect(w.threads[t], w'.threads[t], w'.dropped - w.dropped, |w.links|)
  {
    var th := w.threads[t];
    TaskRankAppend(th.todo, [KickTask(th.pc.id)]);
    PendingAppend(th.todo, [KickTask(th.pc.id)]);
  }

  /** The plan made from a snapshot is paid for by the rank of reading it, and is all pending for a publish. */
  lemma PlanIsPaidFor(w: World, why: Purpose, order: seq<string>)
    requires LinksMatch(w) && RegistryRight(w) && Lists(order, Selected(w.reg, why).Keys)
    ensures 2 + TaskRank(Plan(why, order)) < PcRank(SnapRead(why), |w.links|)
  {
    PlanSize(w, why, order);
    TaskRankBound(Plan(why, order));
  }

  lemma PlanIsPending(why: Purpose, order: seq<string>)
    ensures Pending(Plan(why, order)) == if IsPublish(why) then |order| else 0
  {
    PendingOfPlan(Plan(why, order), why.ToSubject? || why.ToChannel?);
  }

  lemma SnapshotLocal(w: World, t: Tid, order: seq<string>, w': World)
    requires t < |w.threads| && StepSnapshot(w, t, order) == Some(w')
    requires !w.threads[t].pc.SnapUnlock? ==> w.threads[t].todo == []
    requires w.threads[t].pc.SnapRead? ==>
               var why := w.threads[t].pc.why;
               && 2 + TaskRank(Plan(why, order)) < PcRank(SnapRead(why), |w.links|)
               && Pending(Plan(why, order)) == if IsPublish(why) then |order| else 0
    ensures |w'.threads| == |w.threads| && LocalEffect(w.threads[t], w'.threads[t], w'.dropped - w.dropped, |w.links|)
  {
    if w.threads[t].pc.SnapRead? {
      ReadLocal(w, t, order, w');
    }
  }

  lemma ReadLocal(w: World, t: Tid, order: seq<string>, w': World)
    requires t < |w.threads| && StepSnapshot(w, t, order) == Some(w') && w.threads[t].pc.SnapRead?
    requires w.threads[t].todo == []
    requires var why := w.threads[t].pc.why;
             && 2 + TaskRank(Plan(why, order)) < PcRank(SnapRead(why), |w.links|)
             && Pending(Plan(why, order)) == if IsPublish(why) then |order| else 0
    ensures |w'.threads| == |w.threads| && LocalEffect(w.threads[t], w'.threads[t], w'.dropped - w.dropped, |w.links|)
  {
    var why := w.threads[t].pc.why;
    PlannedLocal(w.threads[t], Plan(why, order), if IsPublish(why) then |order| else 0, |w.links|);
  }

  lemma PlannedLocal(th: Thread, plan: seq<Task>, size: nat, links: nat)
    requires th.pc.SnapRead? && th.todo == [] && 2 + TaskRank(plan) < PcRank(th.pc, links) && Pending(plan) == size
    ensures LocalEffect(th, th.(pc := SnapUnlock, todo := plan, snapshot := size), 0, links)
  {
  }

  /** Moving on to a later point of the same operation. */
  lemma GotoLocal(th: Thread, pc: Pc, links: nat)
    requires PcRank(pc, links) < PcRank(th.pc, links) && !th.pc.Push?
    requires !pc.Push? && !pc.SnapLock? && !pc.SnapRead? && !pc.DrainSwap?
    ensures LocalEffect(th, th.(pc := pc), 0, links)
  {
  }

  /** A step of Register moves its thread on, and changes no queue. */
  ghost predicate RegisterMoves(w: World, t: Tid, w': World)
    requires t < |w.threads|
  {
    && |w'.threads| == |w.threads| && w'.threads[t] == w.threads[t].(pc := w'.threads[t].pc) && w'.dropped == w.dropped
    && PcRank(w'.threads[t].pc, |w.links|) < PcRank(w.threads[t].pc, |w.links|)
    && (w'.threads[t].pc.Next? || Registering(w'.threads[t].pc).Some? || w'.threads[t].pc.RegUnlock?)
  }

  lemma RegisterGoesOn(w: World, t: Tid, w': World)
    requires t < |w.threads| && StepRegister(w, t) == Some(w') && !w.threads[t].pc.RegInsert?
    ensures RegisterMoves(w, t, w') && w'.links == w.links
  {
  }

  lemma InsertGoesOn(w: World, t: Tid, w': World)
    requires t < |w.threads| && StepRegister(w, t) == Some(w') && w.threads[t].pc.RegInsert?
    ensures RegisterMoves(w, t, w')
    ensures forall id | id in w.links :: id in w'.links && w'.links[id] == w.links[id].(stage := w'.links[id].stage)
  {
  }

  lemma RegisterLocal(w: World, t: Tid, w': World)
    requires t < |w.threads| && StepRegister(w, t) == Some(w')
    ensures |w'.threads| == |w.threads| && LocalEffect(w.threads[t], w'.threads[t], w'.dropped - w.dropped, |w.links|)
  {
    if w.threads[t].pc.RegInsert? {
      InsertGoesOn(w, t, w');
    } else {
      RegisterGoesOn(w, t, w');
    }
    RegisterIsNoPush(w, t, w');
    GotoLocal(w.threads[t], w'.threads[t].pc, |w.links|);
  }

  lemma RegisterIsNoPush(w: World, t: Tid, w': World)
    requires t < |w.threads| && StepRegister(w, t) == Some(w')
    ensures !w.threads[t].pc.Push?
  {
  }

  /** Where a close goes next. */
  function CloseNext(pc: Pc): Pc {
    match pc
    case CloseMark(id) => BackLock(id)
    case BackLock(id) => BackRemove(id)
    case BackRemove(id) => BackUnlock(id)
    case BackUnlock(id) => CloseLeave(id)
    case _ => Next
  }

  lemma CloseGoesOn(w: World, t: Tid, w': World)
    requires t < |w.threads| && StepClose(w, t) == Some(w')
    ensures w'.threads == w.threads[t := w.threads[t].(pc := CloseNext(w.threads[t].pc))] && w'.dropped == w.dropped
    ensures Closing(w.threads[t].pc).Some?
  {
  }

  lemma CloseLocal(w: World, t: Tid, w': World)
    requires t < |w.threads| && StepClose(w, t) == Some(w')
    ensures |w'.threads| == |w.threads| && LocalEffect(w.threads[t], w'.threads[t], w'.dropped - w.dropped, |w.links|)
  {
    CloseGoesOn(w, t, w');
    CloseNextIsLower(w.threads[t].pc, |w.links|);
    GotoLocal(w.threads[t], CloseNext(w.threads[t].pc), |w.links|);
  }

  lemma CloseNextIsLower(pc: Pc, links: nat)
    requires Closing(pc).Some?
    ensures PcRank(CloseNext(pc), links) < PcRank(pc, links)
  {
  }

  lemma StepIsLocal(w: World, t: Tid, order: seq<string>, w': World)
    requires LinksMatch(w) && RegistryRight(w) && t < |w.threads| && ThreadKnows(w, t)
    requires Step(w, t, order) == Some(w')
    ensures |w'.threads| == |w.threads| && LocalEffect(w.threads[t], w'.threads[t], w'.dropped - w.dropped, |w.links|)
  {
    match PartOf(w.threads[t].pc) {
      case TaskPart => TaskLocal(w, t, w');
      case RegisterPart => RegisterLocal(w, t, w');
      case UnregisterPart => UnregisterLocal(w, t, w');
      case ClosePart => CloseLocal(w, t, w');
      case SnapshotPart =>
        if w.threads[t].pc.SnapRead? {
          PlanIsPaidFor(w, w.threads[t].pc.why, order);
          PlanIsPending(w.threads[t].pc.why, order);
        }
        SnapshotLocal(w, t, order, w');
      case PushPart => PushLocal(w, t, w');
    }
  }

  lemma StepShrinksWork(w: World, t: Tid, order: seq<string>, w': World)
    requires Inv(w) && t < |w.threads| && Step(w, t, order) == Some(w')
    ensures |w'.links| == |w.links| && Work(w'.threads, |w'.links|) < Work(w.threads, |w.links|)
  {
    assert ThreadKnows(w, t);
    StepIsEffective(w, t, order, w');
    StepIsLocal(w, t, order, w');
    assert w'.threads == w.threads[t := w'.threads[t]];
    assert |w'.links| == |w'.links.Keys| == |w.links.Keys| == |w.links|;
    WorkUpdate(w.threads, t, w'.threads[t], |w.links|);
  }

  /** Steps of calls in progress, and queue steps of connection loops: everything that starts no new call. */
  predicate Inner(m: Move) {
    m.Run? || m.LoopTake? || m.LoopWrote?
  }

  function Runs(moves: seq<Move>): nat {
    if moves == [] then 0 else (if moves[0].Run? then 1 else 0) + Runs(moves[1..])
  }

  ghost predicate OnlyInner(moves: seq<Move>) {
    moves == [] || (Inner(moves[0]) && OnlyInner(moves[1..]))
  }

  lemma MoveShrinksWork(w: World, m: Move, w': World)
    requires Inv(w) && Inner(m) && Apply(w, m) == Some(w')
    ensures (if m.Run? then 1 else 0) + Work(w'.threads, |w'.links|) <= Work(w.threads, |w.links|)
  {
    if m.Run? {
      StepShrinksWork(w, m.t, m.order, w');
    } else {
      assert w'.links.Keys == w.links.Keys;
      assert |w'.links| == |w'.links.Keys| == |w.links.Keys| == |w.links|;
    }
  }

  /** However they are interleaved, the calls in progress can take only so many steps in all. */
  lemma {:induction false} CallsAreBounded(w: World, moves: seq<Move>)
    requires Inv(w) && After(w, moves).Some? && OnlyInner(moves)
    ensures Runs(moves) + Work(After(w, moves).value.threads, |w.links|) <= Work(w.threads, |w.links|)
    decreases |moves|
  {
    if moves != [] {
      var w' := Apply(w, moves[0]).value;
      ApplyKeepsInv(w, moves[0]);
      MoveShrinksWork(w, moves[0], w');
      SameLinkCount(w, moves[0], w');
      CallsAreBounded(w', moves[1..]);
    }
  }

  ghost predicate AllReturned(w: World) {
    forall t | 0 <= t < |w.threads| :: w.threads[t].pc.Returned?
  }

  /** No call in progress can take a step. */
  ghost predicate AtRest(w: World) {
    forall t, order | 0 <= t < |w.threads| :: Step(w, t, order).None?
  }

  /**
   Every call returns, BeginDrain included: a run that starts no new call has a bounded number
   of steps, and when it cannot be continued every call has returned. Nor can anything else
   have stopped it: a state at rest is one in which all have returned.
   */
  lemma EveryCallReturns(max: nat, w: World, moves: seq<Move>)
    requires Reachable(max, w) && OnlyInner(moves) && After(w, moves).Some?
    ensures Runs(moves) <= Work(w.threads, |w.links|)
    ensures AtRest(After(w, moves).value) <==> AllReturned(After(w, moves).value)
  {
    ReachableInv(max, w);
    CallsAreBounded(w, moves);
    RunKeepsInv(w, moves);
    RestMeansReturned(After(w, moves).value);
  }

  lemma ReturnedIsAtRest(w: World, t: Tid, order: seq<string>)
    requires t < |w.threads| && w.threads[t].pc.Returned?
    ensures Step(w, t, order).None?
  {
  }

  lemma RestMeansReturned(w: World)
    requires Inv(w)
    ensures AtRest(w) <==> AllReturned(w)
  {
    if AllReturned(w) {
      forall t, order | 0 <= t < |w.threads|
        ensures Step(w, t, order).None?
      {
        ReturnedIsAtRest(w, t, order);
      }
    } else {
      var t: Tid :| t < |w.threads| && !w.threads[t].pc.Returned?;
      var u, order := SomeCallSteps(w, t);
    }
  }

  /** And from every reachable state there is such a run to the end. */
  lemma {:induction false} CallsCanReturn(w: World) returns (moves: seq<Move>)
    requires Inv(w)
    ensures OnlyInner(moves) && After(w, moves).Some? && AllReturned(After(w, moves).value)
    decreases Work(w.threads, |w.links|)
  {
    moves := [];
    if !AllReturned(w) {
      var t: Tid :| t < |w.threads| && !w.threads[t].pc.Returned?;
      var u, order := SomeCallSteps(w, t);
      var m := Run(u, order);
      var w' := Apply(w, m).value;
      ApplyKeepsInv(w, m);
      StepShrinksWork(w, u, order, w');
      var rest := CallsCanReturn(w');
      moves := [m] + rest;
      assert moves[1..] == rest;
    }
  }

  lemma SameLinkCount(w: World, m: Move, w': World)
    requires Inv(w) && Inner(m) && Apply(w, m) == Some(w')
    ensures |w'.links| == |w.links|
  {
    if m.Run? {
      StepShrinksWork(w, m.t, m.order, w');
    } else {
      assert w'.links.Keys == w.links.Keys;
      assert |w'.links| == |w'.links.Keys| == |w.links.Keys| == |w.links|;
    }
  }

  // ----- queues and publish accounting -----

  ghost predicate QueueRight(l: Link) {
    && l.accepted == l.written + l.inFlight + l.queue
    && |l.queue| <= l.capacity
    && (l.loop.Waiting? ==> l.inFlight == [])
  }

  ghost predicate QueuesRight(w: World) {
    forall id | id in w.links :: QueueRight(w.links[id])
  }

  function Pending(todo: seq<Task>): nat {
    if todo == [] then 0 else (if todo[0].CloseTask? then 0 else 1) + Pending(todo[1..])
  }

  predicate AccountsRight(th: Thread) {
    && th.snapshot == th.delivered + th.kicked + Pending(th.todo) + (if th.pc.Push? then 1 else 0)
    && (th.pc.SnapLock? || th.pc.SnapRead? || th.pc.DrainSwap? ==> th.snapshot == 0)
  }

  function Kicked(threads: seq<Thread>): nat {
    if threads == [] then 0 else threads[0].kicked + Kicked(threads[1..])
  }

  ghost predicate PublishInv(w: World) {
    && QueuesRight(w)
    && (forall t | 0 <= t < |w.threads| :: AccountsRight(w.threads[t]))
    && w.dropped == Kicked(w.threads)
  }

  lemma {:induction false} PendingAppend(a: seq<Task>, b: seq<Task>)
    ensures Pending(a + b) == Pending(a) + Pending(b)
    decreases |a|
  {
    if a == [] {
      assert a + b == b;
    } else {
      assert (a + b)[1..] == a[1..] + b;
      PendingAppend(a[1..], b);
    }
  }

  lemma {:induction false} PendingOfPlan(todo: seq<Task>, publishing: bool)
    requires forall i | 0 <= i < |todo| :: todo[i].EnqueueTask? == publishing && todo[i].CloseTask? == !publishing
    ensures Pending(todo) == if publishing then |todo| else 0
    decreases |todo|
  {
    if todo != [] {
      PendingOfPlan(todo[1..], publishing);
    }
  }

  lemma {:induction false} KickedUpdate(threads: seq<Thread>, t: nat, th: Thread)
    requires t < |threads|
    ensures Kicked(threads[t := th]) == Kicked(threads) - threads[t].kicked + th.kicked
    decreases |threads|
  {
    if t > 0 {
      assert threads[t := th][1..] == threads[1..][t - 1 := th];
      KickedUpdate(threads[1..], t - 1, th);
    } else {
      assert threads[t := th][1..] == threads[1..];
    }
  }

  lemma {:induction false} KickedSpawn(threads: seq<Thread>, th: Thread)
    ensures Kicked(threads + [th]) == Kicked(threads) + th.kicked
    decreases |threads|
  {
    if threads == [] {
      assert threads + [th] == [th];
    } else {
      assert (threads + [th])[1..] == threads[1..] + [th];
      KickedSpawn(threads[1..], th);
    }
  }

  lemma PushKeepsQueue(w: World, t: Tid, w': World, id: string)
    requires id in w.links && QueueRight(w.links[id]) && t < |w.threads| && StepPush(w, t) == Some(w')
    ensures id in w'.links && QueueRight(w'.links[id])
  {
  }

  /** Nothing but Enqueue's send touches a queue on behalf of a call, or counts a delivery. */
  predicate SameQueue(l: Link, l': Link) {
    l' == l.(stage := l'.stage, once := l'.once, closed := l'.closed)
  }

  ghost predicate DeliversNothing(w: World, w': World, t: Tid)
    requires t < |w.threads|
  {
    && |w'.threads| == |w.threads| && w'.threads[t].delivered == w.threads[t].delivered
    && (forall id | id in w.links :: id in w'.links && SameQueue(w.links[id], w'.links[id]))
  }

  lemma CloseTaskDeliversNothing(w: World, t: Tid, w': World)
    requires t < |w.threads| && BeginTask(w, t) == Some(w') && w.threads[t].todo != [] && w.threads[t].todo[0].CloseTask?
    ensures DeliversNothing(w, w', t)
  {
  }

  lemma OtherTaskDeliversNothing(w: World, t: Tid, w': World)
    requires t < |w.threads| && BeginTask(w, t) == Some(w') && !(w.threads[t].todo != [] && w.threads[t].todo[0].CloseTask?)
    ensures DeliversNothing(w, w', t)
  {
  }

  lemma TaskDeliversNothing(w: World, t: Tid, w': World)
    requires t < |w.threads| && BeginTask(w, t) == Some(w')
    ensures DeliversNothing(w, w', t)
  {
    if w.threads[t].todo != [] && w.threads[t].todo[0].CloseTask? {
      CloseTaskDeliversNothing(w, t, w');
    } else {
      OtherTaskDeliversNothing(w, t, w');
    }
  }

  lemma RegisterDeliversNothing(w: World, t: Tid, w': World)
    requires t < |w.threads| && StepRegister(w, t) == Some(w')
    ensures DeliversNothing(w, w', t)
  {
    if w.threads[t].pc.RegInsert? {
      InsertGoesOn(w, t, w');
    } else {
      RegisterGoesOn(w, t, w');
    }
  }

  lemma UnregisterDeliversNothing(w: World, t: Tid, w': World)
    requires t < |w.threads| && StepUnregister(w, t) == Some(w')
    ensures DeliversNothing(w, w', t)
  {
  }

  lemma CloseDeliversNothing(w: World, t: Tid, w': World)
    requires t < |w.threads| && StepClose(w, t) == Some(w')
    ensures DeliversNothing(w, w', t)
  {
  }

  lemma SnapshotDeliversNothing(w: World, t: Tid, order: seq<string>, w': World)
    requires t < |w.threads| && StepSnapshot(w, t, order) == Some(w')
    ensures DeliversNothing(w, w', t)
  {
  }

  lemma OthersDeliverNothing(w: World, t: Tid, order: seq<string>, w': World)
    requires t < |w.threads| && !w.threads[t].pc.Push? && Step(w, t, order) == Some(w')
    ensures DeliversNothing(w, w', t)
  {
    match PartOf(w.threads[t].pc) {
      case TaskPart => TaskDeliversNothing(w, t, w');
      case RegisterPart => RegisterDeliversNothing(w, t, w');
      case UnregisterPart => UnregisterDeliversNothing(w, t, w');
      case ClosePart => CloseDeliversNothing(w, t, w');
      case SnapshotPart => SnapshotDeliversNothing(w, t, order, w');
      case PushPart =>
    }
  }

  lemma StepKeepsQueues(w: World, t: Tid, order: seq<string>, w': World)
    requires QueuesRight(w) && t < |w.threads| && Step(w, t, order) == Some(w') && w'.links.Keys == w.links.Keys
    ensures QueuesRight(w')
  {
    forall id | id in w'.links
      ensures QueueRight(w'.links[id])
    {
      if w.threads[t].pc.Push? {
        PushKeepsQueue(w, t, w', id);
      } else {
        OthersDeliverNothing(w, t, order, w');
        SameQueueIsRight(w.links[id], w'.links[id]);
      }
    }
  }

  lemma SameQueueIsRight(l: Link, l': Link)
    requires QueueRight(l) && SameQueue(l, l')
    ensures QueueRight(l')
  {
  }

  lemma StepKeepsPublishInv(w: World, t: Tid, order: seq<string>, w': World)
    requires LinksMatch(w) && RegistryRight(w) && PublishInv(w)
    requires t < |w.threads| && ThreadKnows(w, t) && Step(w, t, order) == Some(w')
    ensures PublishInv(w')
  {
    StepIsEffective(w, t, order, w');
    StepIsLocal(w, t, order, w');
    StepKeepsQueues(w, t, order, w');
    StepKeepsCounters(w, t, w');
  }

  lemma StepKeepsCounters(w: World, t: Tid, w': World)
    requires (forall u | 0 <= u < |w.threads| :: AccountsRight(w.threads[u])) && w.dropped == Kicked(w.threads)
    requires Moves(w, w', t) && LocalEffect(w.threads[t], w'.threads[t], w'.dropped - w.dropped, |w.links|)
    ensures (forall u | 0 <= u < |w'.threads| :: AccountsRight(w'.threads[u])) && w'.dropped == Kicked(w'.threads)
  {
    assert w'.threads == w.threads[t := w'.threads[t]];
    KickedUpdate(w.threads, t, w'.threads[t]);
  }

  lemma ApplyKeepsPublishInv(w: World, m: Move)
    requires Inv(w) && PublishInv(w) && Apply(w, m).Some?
    ensures PublishInv(Apply(w, m).value)
  {
    var w' := Apply(w, m).value;
    if m.Run? {
      assert ThreadKnows(w, m.t);
      StepKeepsPublishInv(w, m.t, m.order, w');
    } else {
      OtherMovesKeepPublishInv(w, m);
    }
  }

  lemma SpawnKeepsPublishInv(w: World, pc: Pc, todo: seq<Task>)
    requires PublishInv(w) && Pending(todo) == 0 && !pc.Push?
    ensures PublishInv(Spawn(w, pc, todo))
  {
    KickedSpawn(w.threads, Thread(pc, todo, 0, 0, 0));
  }

  lemma LinkKeepsPublishInv(w: World, id: string, l: Link)
    requires PublishInv(w) && QueueRight(l)
    ensures PublishInv(SetLink(w, id, l))
  {
  }

  lemma OtherMovesKeepPublishInv(w: World, m: Move)
    requires PublishInv(w) && !m.Run? && Apply(w, m).Some?
    ensures PublishInv(Apply(w, m).value)
  {
    var w' := Apply(w, m).value;
    match m {
      case CallRegister(c, capacity) =>
        LinkKeepsPublishInv(w, c.id, FreshLink(capacity, |w.threads|));
        SpawnKeepsPublishInv(SetLink(w, c.id, FreshLink(capacity, |w.threads|)), RegTest(c), []);
      case CallUnregister(id) => SpawnKeepsPublishInv(w, UnregLock(id), []);
      case CallSnapshot(why) => SpawnKeepsPublishInv(w, SnapLock(why), []);
      case CallDrain => SpawnKeepsPublishInv(w, DrainSwap, []);
      case LoopTake(id) => LinkKeepsPublishInv(w, id, w'.links[id]);
      case LoopWrote(id) => LinkKeepsPublishInv(w, id, w'.links[id]);
      case LoopExit(id) =>
        LinkKeepsPublishInv(w, id, w'.links[id]);
        assert Pending([CloseTask(id)]) == 0;
        SpawnKeepsPublishInv(SetLink(w, id, w'.links[id]), Next, [CloseTask(id)]);
    }
  }

  lemma {:induction false} RunKeepsPublishInv(w: World, moves: seq<Move>)
    requires Inv(w) && PublishInv(w) && After(w, moves).Some?
    ensures PublishInv(After(w, moves).value)
    decreases |moves|
  {
    if moves != [] {
      ApplyKeepsInv(w, moves[0]);
      ApplyKeepsPublishInv(w, moves[0]);
      RunKeepsPublishInv(Apply(w, moves[0]).value, moves[1..]);
    }
  }

  lemma ReachablePublishInv(max: nat, w: World)
    requires Reachable(max, w)
    ensures Inv(w) && PublishInv(w)
  {
    ReachableInv(max, w);
    var moves :| After(Init(max), moves) == Some(w);
    InitIsRight(max);
    RunKeepsPublishInv(Init(max), moves);
  }

  lemma InitIsRight(max: nat)
    ensures Inv(Init(max)) && PublishInv(Init(max))
  {
  }

  /** Events reach the client in the order they were accepted, none invented or repeated, and the queue stays bounded. */
  lemma ConnectionFifo(max: nat, w: World, id: string)
    requires Reachable(max, w) && id in w.links
    ensures var l := w.links[id];
            l.written <= l.accepted && |l.queue| <= l.capacity && l.accepted == l.written + l.inFlight + l.queue
  {
    ReachablePublishInv(max, w);
  }
}
