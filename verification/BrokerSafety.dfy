/** What every interleaving of the broker machine keeps. */
module BrokerSafety {
  import opened Wrappers
  import opened Registry
  import opened BrokerMachine

  // ----- the invariant -----

  predicate HoldsWrite(pc: Pc) {
    pc.RegCheck? || pc.RegInsert? || pc.RegUnlock? || pc.UnregRemove? || pc.UnregUnlock? || pc.BackRemove? || pc.BackUnlock?
  }

  predicate HoldsRead(pc: Pc) {
    pc.SnapRead? || pc.SnapUnlock?
  }

  /** The connection whose Close this thread is executing. */
  function Closing(pc: Pc): Option<string> {
    match pc
    case CloseMark(id) => Some(id)
    case BackLock(id) => Some(id)
    case BackRemove(id) => Some(id)
    case BackUnlock(id) => Some(id)
    case CloseLeave(id) => Some(id)
    case _ => None
  }

  /** The connection this thread is registering and has not yet inserted. */
  function Registering(pc: Pc): Option<Info> {
    match pc
    case RegTest(c) => Some(c)
    case RegLock(c) => Some(c)
    case RegCheck(c) => Some(c)
    case RegInsert(c) => Some(c)
    case _ => None
  }

  ghost predicate LocksMatch(w: World) {
    && (forall t | 0 <= t < |w.threads| :: HoldsWrite(w.threads[t].pc) <==> w.writer == Some(t))
    && (forall t | 0 <= t < |w.threads| :: HoldsRead(w.threads[t].pc) <==> t in w.readers)
    && (w.writer.Some? ==> w.writer.value < |w.threads| && w.readers == {})
    && (forall t | t in w.readers :: t < |w.threads|)
  }

  ghost predicate OncesMatch(w: World) {
    && (forall t | 0 <= t < |w.threads| :: Closing(w.threads[t].pc).Some? ==>
          var id := Closing(w.threads[t].pc).value; id in w.links && w.links[id].once == Running(t))
    && (forall id | id in w.links && w.links[id].once.Running? ::
          w.links[id].once.owner < |w.threads| && Closing(w.threads[w.links[id].once.owner].pc) == Some(id))
  }

  predicate KnownLink(w: World, id: string) {
    id in w.links && w.links[id].stage.Started?
  }

  /** Calls only hold connections that were registered. */
  ghost predicate ThreadKnows(w: World, t: Tid)
    requires t < |w.threads|
  {
    var th := w.threads[t];
    && (forall i | 0 <= i < |th.todo| :: KnownLink(w, th.todo[i].id))
    && (Registering(th.pc).Some? ==>
          var c := Registering(th.pc).value; c.id in w.links && w.links[c.id].stage == Built(t) && th.todo == [])
    && (th.pc.UnregUnlock? && th.pc.found ==> KnownLink(w, th.pc.id))
    && (th.pc.Push? ==> KnownLink(w, th.pc.id))
    && (th.pc.SnapLock? || th.pc.SnapRead? || th.pc.DrainSwap? || th.pc.Returned? ==> th.todo == [])
  }

  ghost predicate ThreadsKnow(w: World) {
    forall t | 0 <= t < |w.threads| :: ThreadKnows(w, t)
  }

  /** A connection that is not inserted yet is open, and one whose Close finished is gone. */
  ghost predicate LinksMatch(w: World) {
    && (forall id | id in w.reg.conns :: KnownLink(w, id))
    && (forall id | id in w.links :: w.links[id].stage.Built? ==> w.links[id].once.Idle?)
    && (forall id | id in w.links :: w.links[id].once.Done? ==> id !in w.reg.conns)
    && (forall t | 0 <= t < |w.threads| :: w.threads[t].pc.BackUnlock? || w.threads[t].pc.CloseLeave? ==>
          w.threads[t].pc.id !in w.reg.conns)
  }

  ghost predicate RegistryRight(w: World) {
    && Agrees(w.reg)
    && WithinLimit(w.reg, w.maxPerSubject)
    && (forall t | 0 <= t < |w.threads| :: w.threads[t].pc.RegInsert? ==>
          !TooMany(w.reg, w.threads[t].pc.c, w.maxPerSubject))
  }

  /** The draining call has taken its snapshot. */
  predicate PastSnapshot(w: World) {
    w.drainer.Some? && w.drainer.value < |w.threads| &&
    var pc := w.threads[w.drainer.value].pc; !(pc.SnapLock? || pc.SnapRead?)
  }

  /** The draining call will still remove connection `id`. */
  predicate WillDrain(th: Thread, id: string) {
    || CloseTask(id) in th.todo
    || th.pc == CloseMark(id) || th.pc == BackLock(id) || th.pc == BackRemove(id)
  }

  ghost predicate DrainOnTrack(w: World) {
    && (w.draining <==> w.drainer.Some?)
    && (w.drainer.Some? ==> w.drainer.value < |w.threads|)
    && (w.drainer.Some? ==> var pc := w.threads[w.drainer.value].pc;
          (pc.SnapLock? ==> pc.why == Drain) && (pc.SnapRead? ==> pc.why == Drain))
    && (PastSnapshot(w) ==>
          && (forall t | 0 <= t < |w.threads| :: !w.threads[t].pc.RegInsert?)
          && (forall id | id in w.reg.conns :: WillDrain(w.threads[w.drainer.value], id)))
  }

  ghost predicate Inv(w: World) {
    LocksMatch(w) && OncesMatch(w) && ThreadsKnow(w) && LinksMatch(w) && RegistryRight(w) && DrainOnTrack(w)
  }

  // ----- one step keeps each part -----

  /** Only thread `t` moves, and no connection appears or disappears. */
  ghost predicate Moves(w: World, w': World, t: Tid) {
    && t < |w.threads| == |w'.threads|
    && (forall u | 0 <= u < |w.threads| && u != t :: w'.threads[u] == w.threads[u])
    && w'.links.Keys == w.links.Keys
    && w'.maxPerSubject == w.maxPerSubject
  }

  predicate LockEffect(w: World, w': World, t: Tid)
    requires t < |w.threads| == |w'.threads|
  {
    var pc, pc' := w.threads[t].pc, w'.threads[t].pc;
    && (HoldsWrite(pc') && !HoldsWrite(pc) ==> LockFree(w))
    && (HoldsRead(pc') && !HoldsRead(pc) ==> w.writer == None)
    && w'.writer == (if HoldsWrite(pc') == HoldsWrite(pc) then w.writer else if HoldsWrite(pc') then Some(t) else None)
    && w'.readers == (if HoldsRead(pc') == HoldsRead(pc) then w.readers
                      else if HoldsRead(pc') then w.readers + {t} else w.readers - {t})
  }

  /** Close is entered by taking the connection's once, and left by finishing it. */
  ghost predicate OnceEffect(w: World, w': World, t: Tid)
    requires t < |w.threads| == |w'.threads| && w'.links.Keys == w.links.Keys
  {
    var was, now := Closing(w.threads[t].pc), Closing(w'.threads[t].pc);
    || (was == now && forall id | id in w.links :: w'.links[id].once == w.links[id].once)
    || (was.None? && now.Some? && now.value in w.links && w.links[now.value].once.Idle? && w.links[now.value].stage.Started?
        && forall id | id in w.links :: w'.links[id].once == if id == now.value then Running(t) else w.links[id].once)
    || (was.Some? && now.None? && was.value in w.links && w.threads[t].pc.CloseLeave?
        && forall id | id in w.links :: w'.links[id].once == if id == was.value then Done else w.links[id].once)
  }

  /** A connection is started only by the thread that registers it. */
  ghost predicate StageEffect(w: World, w': World, t: Tid)
    requires t < |w.threads| == |w'.threads| && w'.links.Keys == w.links.Keys
  {
    var was, now := Registering(w.threads[t].pc), Registering(w'.threads[t].pc);
    forall id | id in w.links :: w'.links[id].stage == w.links[id].stage ||
      (was.Some? && was.value.id == id && now.None? && w'.links[id].stage.Started?)
  }

  /** The registry only changes under the write lock. */
  predicate RegistryEffect(w: World, w': World, t: Tid)
    requires t < |w.threads| == |w'.threads|
  {
    var pc, pc' := w.threads[t].pc, w'.threads[t].pc;
    || (w'.reg == w.reg && !pc.RegInsert? && !pc.UnregRemove? && !pc.BackRemove?
        && (pc'.RegInsert? ==> pc == RegCheck(pc'.c) && !w.draining && !TooMany(w.reg, pc'.c, w.maxPerSubject))
        && (pc'.BackUnlock? || pc'.CloseLeave? ==> pc == BackUnlock(pc'.id)))
    || (pc.RegInsert? && pc'.RegUnlock? && w'.reg == Insert(w.reg, pc.c) && KnownLink(w', pc.c.id))
    || (pc.UnregRemove? && pc'.UnregUnlock? && w'.reg == Remove(w.reg, pc.id))
    || (pc.BackRemove? && pc' == BackUnlock(pc.id) && w'.reg == Remove(w.reg, pc.id))
  }

  /** A draining call never forgets a registered connection. */
  ghost predicate DrainEffect(w: World, w': World, t: Tid)
    requires t < |w.threads| == |w'.threads|
  {
    var th, th' := w.threads[t], w'.threads[t];
    && (if th.pc.DrainSwap? && !w.draining then w'.draining && w'.drainer == Some(t) && th'.pc == SnapLock(Drain)
        else w'.draining == w.draining && w'.drainer == w.drainer && !th'.pc.SnapLock?)
    && (th'.pc.SnapRead? ==> th.pc == SnapLock(th'.pc.why))
    && (th.pc.SnapLock? ==> th'.pc.SnapRead?)
    && (th.pc == SnapRead(Drain) ==> w'.reg == w.reg && forall id | id in w.reg.conns :: WillDrain(th', id))
    && (!th.pc.SnapRead? ==> forall id | id in w'.reg.conns && WillDrain(th, id) :: WillDrain(th', id))
  }

  ghost predicate ControlEffects(w: World, w': World, t: Tid) {
    Moves(w, w', t) && LockEffect(w, w', t)
  }

  ghost predicate DataEffects(w: World, w': World, t: Tid) {
    Moves(w, w', t) && OnceEffect(w, w', t) && StageEffect(w, w', t) && RegistryEffect(w, w', t)
  }

  lemma TaskMoves(w: World, t: Tid, w': World)
    requires t < |w.threads| && BeginTask(w, t) == Some(w') && w.threads[t].pc.Next?
    requires ThreadKnows(w, t)
    ensures Moves(w, w', t)
  {
  }

  lemma TaskLock(w: World, t: Tid, w': World)
    requires t < |w.threads| && BeginTask(w, t) == Some(w') && w.threads[t].pc.Next?
    requires ThreadKnows(w, t) && Moves(w, w', t)
    ensures LockEffect(w, w', t)
  {
    if w.threads[t].todo != [] && w.threads[t].todo[0].CloseTask? {
      CloseTaskLock(w, t, w');
    }
  }

  lemma CloseTaskLock(w: World, t: Tid, w': World)
    requires t < |w.threads| && BeginTask(w, t) == Some(w') && w.threads[t].pc.Next?
    requires w.threads[t].todo != [] && w.threads[t].todo[0].CloseTask? && ThreadKnows(w, t) && Moves(w, w', t)
    ensures LockEffect(w, w', t)
  {
  }

  lemma TaskOnces(w: World, t: Tid, w': World)
    requires t < |w.threads| && BeginTask(w, t) == Some(w') && w.threads[t].pc.Next?
    requires ThreadKnows(w, t) && Moves(w, w', t)
    ensures OnceEffect(w, w', t)
  {
  }

  lemma TaskStages(w: World, t: Tid, w': World)
    requires t < |w.threads| && BeginTask(w, t) == Some(w') && w.threads[t].pc.Next?
    requires ThreadKnows(w, t) && Moves(w, w', t)
    ensures StageEffect(w, w', t)
  {
  }

  lemma TaskRegistry(w: World, t: Tid, w': World)
    requires t < |w.threads| && BeginTask(w, t) == Some(w') && w.threads[t].pc.Next?
    requires ThreadKnows(w, t) && Moves(w, w', t)
    ensures RegistryEffect(w, w', t)
  {
  }

  lemma CloseTaskSelf(w: World, t: Tid, w': World)
    requires t < |w.threads| && BeginTask(w, t) == Some(w') && w.threads[t].pc.Next?
    requires ThreadKnows(w, t) && Moves(w, w', t)
    requires w.threads[t].todo != [] && w.threads[t].todo[0].CloseTask?
    ensures ThreadKnows(w', t)
  {
  }

  lemma EnqueueTaskSelf(w: World, t: Tid, w': World)
    requires t < |w.threads| && BeginTask(w, t) == Some(w') && w.threads[t].pc.Next?
    requires ThreadKnows(w, t) && Moves(w, w', t)
    requires w.threads[t].todo != [] && w.threads[t].todo[0].EnqueueTask?
    ensures ThreadKnows(w', t)
  {
  }

  lemma OtherTaskSelf(w: World, t: Tid, w': World)
    requires t < |w.threads| && BeginTask(w, t) == Some(w') && w.threads[t].pc.Next?
    requires ThreadKnows(w, t) && Moves(w, w', t)
    requires w.threads[t].todo == [] || w.threads[t].todo[0].KickTask?
    ensures ThreadKnows(w', t)
  {
  }

  lemma TaskSelf(w: World, t: Tid, w': World)
    requires t < |w.threads| && BeginTask(w, t) == Some(w') && w.threads[t].pc.Next?
    requires ThreadKnows(w, t) && Moves(w, w', t)
    ensures ThreadKnows(w', t)
  {
    var todo := w.threads[t].todo;
    if todo != [] && todo[0].CloseTask? {
      CloseTaskSelf(w, t, w');
    } else if todo != [] && todo[0].EnqueueTask? {
      EnqueueTaskSelf(w, t, w');
    } else {
      OtherTaskSelf(w, t, w');
    }
  }

  lemma CloseTaskDrain(w: World, t: Tid, w': World)
    requires t < |w.threads| && BeginTask(w, t) == Some(w') && w.threads[t].pc.Next?
    requires ThreadKnows(w, t) && LinksMatch(w) && Moves(w, w', t)
    requires w.threads[t].todo != [] && w.threads[t].todo[0].CloseTask?
    ensures DrainEffect(w, w', t)
  {
  }

  lemma EnqueueTaskDrain(w: World, t: Tid, w': World)
    requires t < |w.threads| && BeginTask(w, t) == Some(w') && w.threads[t].pc.Next?
    requires ThreadKnows(w, t) && LinksMatch(w) && Moves(w, w', t)
    requires w.threads[t].todo != [] && w.threads[t].todo[0].EnqueueTask?
    ensures DrainEffect(w, w', t)
  {
  }

  lemma OtherTaskDrain(w: World, t: Tid, w': World)
    requires t < |w.threads| && BeginTask(w, t) == Some(w') && w.threads[t].pc.Next?
    requires ThreadKnows(w, t) && LinksMatch(w) && Moves(w, w', t)
    requires w.threads[t].todo == [] || w.threads[t].todo[0].KickTask?
    ensures DrainEffect(w, w', t)
  {
  }

  lemma TaskDrain(w: World, t: Tid, w': World)
    requires t < |w.threads| && BeginTask(w, t) == Some(w') && w.threads[t].pc.Next?
    requires ThreadKnows(w, t) && LinksMatch(w) && Moves(w, w', t)
    ensures DrainEffect(w, w', t)
  {
    var todo := w.threads[t].todo;
    if todo != [] && todo[0].CloseTask? {
      CloseTaskDrain(w, t, w');
    } else if todo != [] && todo[0].EnqueueTask? {
      EnqueueTaskDrain(w, t, w');
    } else {
      OtherTaskDrain(w, t, w');
    }
  }

  lemma RegisterMoves(w: World, t: Tid, w': World)
    requires t < |w.threads| && StepRegister(w, t) == Some(w')
    requires ThreadKnows(w, t)
    ensures Moves(w, w', t)
  {
  }

  lemma RegisterLock(w: World, t: Tid, w': World)
    requires t < |w.threads| && StepRegister(w, t) == Some(w')
    requires ThreadKnows(w, t) && Moves(w, w', t)
    ensures LockEffect(w, w', t)
  {
  }

  lemma RegisterOnces(w: World, t: Tid, w': World)
    requires t < |w.threads| && StepRegister(w, t) == Some(w')
    requires ThreadKnows(w, t) && Moves(w, w', t)
    ensures OnceEffect(w, w', t)
  {
  }

  lemma RegisterStages(w: World, t: Tid, w': World)
    requires t < |w.threads| && StepRegister(w, t) == Some(w')
    requires ThreadKnows(w, t) && Moves(w, w', t)
    ensures StageEffect(w, w', t)
  {
  }

  lemma RegisterRegistry(w: World, t: Tid, w': World)
    requires t < |w.threads| && StepRegister(w, t) == Some(w')
    requires ThreadKnows(w, t) && Moves(w, w', t)
    ensures RegistryEffect(w, w', t)
  {
  }

  lemma RegisterSelf(w: World, t: Tid, w': World)
    requires t < |w.threads| && StepRegister(w, t) == Some(w')
    requires ThreadKnows(w, t) && Moves(w, w', t)
    ensures ThreadKnows(w', t)
  {
  }

  lemma RegisterDrain(w: World, t: Tid, w': World)
    requires t < |w.threads| && StepRegister(w, t) == Some(w')
    requires ThreadKnows(w, t) && Moves(w, w', t)
    ensures DrainEffect(w, w', t)
  {
  }

  lemma UnregisterControl(w: World, t: Tid, w': World)
    requires t < |w.threads| && StepUnregister(w, t) == Some(w')
    requires ThreadKnows(w, t)
    ensures ControlEffects(w, w', t)
  {
  }

  lemma UnregisterData(w: World, t: Tid, w': World)
    requires t < |w.threads| && StepUnregister(w, t) == Some(w')
    requires ThreadKnows(w, t)
    ensures DataEffects(w, w', t)
  {
  }

  lemma UnregisterSelf(w: World, t: Tid, w': World)
    requires t < |w.threads| && StepUnregister(w, t) == Some(w')
    requires ThreadKnows(w, t) && LinksMatch(w) && Moves(w, w', t)
    ensures ThreadKnows(w', t)
  {
    if w.threads[t].pc.UnregRemove? {
      RemoveSelf(w, t, w');
    }
  }

  lemma RemoveSelf(w: World, t: Tid, w': World)
    requires t < |w.threads| && StepUnregister(w, t) == Some(w') && w.threads[t].pc.UnregRemove?
    requires ThreadKnows(w, t) && LinksMatch(w) && Moves(w, w', t)
    ensures ThreadKnows(w', t)
  {
  }

  lemma UnregisterDrain(w: World, t: Tid, w': World)
    requires t < |w.threads| && StepUnregister(w, t) == Some(w')
    requires ThreadKnows(w, t) && LinksMatch(w) && Moves(w, w', t)
    ensures DrainEffect(w, w', t)
  {
  }

  lemma CloseMoves(w: World, t: Tid, w': World)
    requires t < |w.threads| && StepClose(w, t) == Some(w')
    requires ThreadKnows(w, t)
    ensures Moves(w, w', t)
  {
  }

  lemma CloseLock(w: World, t: Tid, w': World)
    requires t < |w.threads| && StepClose(w, t) == Some(w')
    requires ThreadKnows(w, t) && Moves(w, w', t)
    ensures LockEffect(w, w', t)
  {
  }

  lemma CloseOnces(w: World, t: Tid, w': World)
    requires t < |w.threads| && StepClose(w, t) == Some(w')
    requires ThreadKnows(w, t) && Moves(w, w', t)
    ensures OnceEffect(w, w', t)
  {
    if w.threads[t].pc.CloseMark? {
      MarkOnces(w, t, w');
    } else if w.threads[t].pc.CloseLeave? {
      LeaveOnces(w, t, w');
    }
  }

  lemma MarkOnces(w: World, t: Tid, w': World)
    requires t < |w.threads| && StepClose(w, t) == Some(w') && w.threads[t].pc.CloseMark?
    requires ThreadKnows(w, t) && Moves(w, w', t)
    ensures OnceEffect(w, w', t)
  {
  }

  lemma LeaveOnces(w: World, t: Tid, w': World)
    requires t < |w.threads| && StepClose(w, t) == Some(w') && w.threads[t].pc.CloseLeave?
    requires ThreadKnows(w, t) && Moves(w, w', t)
    ensures OnceEffect(w, w', t)
  {
  }

  lemma CloseStages(w: World, t: Tid, w': World)
    requires t < |w.threads| && StepClose(w, t) == Some(w')
    requires ThreadKnows(w, t) && Moves(w, w', t)
    ensures StageEffect(w, w', t)
  {
  }

  lemma CloseRegistry(w: World, t: Tid, w': World)
    requires t < |w.threads| && StepClose(w, t) == Some(w')
    requires ThreadKnows(w, t) && Moves(w, w', t)
    ensures RegistryEffect(w, w', t)
  {
  }

  lemma CloseSelf(w: World, t: Tid, w': World)
    requires t < |w.threads| && StepClose(w, t) == Some(w')
    requires ThreadKnows(w, t) && Moves(w, w', t)
    ensures ThreadKnows(w', t)
  {
  }

  lemma CloseDrain(w: World, t: Tid, w': World)
    requires t < |w.threads| && StepClose(w, t) == Some(w')
    requires ThreadKnows(w, t) && Moves(w, w', t)
    ensures DrainEffect(w, w', t)
  {
  }

  lemma SnapshotControl(w: World, t: Tid, order: seq<string>, w': World)
    requires t < |w.threads| && StepSnapshot(w, t, order) == Some(w')
    requires ThreadKnows(w, t)
    ensures ControlEffects(w, w', t)
  {
  }

  lemma SnapshotData(w: World, t: Tid, order: seq<string>, w': World)
    requires t < |w.threads| && StepSnapshot(w, t, order) == Some(w')
    requires ThreadKnows(w, t)
    ensures DataEffects(w, w', t)
  {
  }

  lemma SnapshotReadSelf(w: World, t: Tid, order: seq<string>, w': World)
    requires t < |w.threads| && StepSnapshot(w, t, order) == Some(w')
    requires ThreadKnows(w, t) && LinksMatch(w) && RegistryRight(w)
    requires w.threads[t].pc.SnapRead?
    ensures Moves(w, w', t) && ThreadKnows(w', t)
  {
  }

  lemma SnapshotOtherSelf(w: World, t: Tid, order: seq<string>, w': World)
    requires t < |w.threads| && StepSnapshot(w, t, order) == Some(w')
    requires ThreadKnows(w, t) && LinksMatch(w) && RegistryRight(w)
    requires !w.threads[t].pc.SnapRead?
    ensures Moves(w, w', t) && ThreadKnows(w', t)
  {
  }

  lemma SnapshotSelf(w: World, t: Tid, order: seq<string>, w': World)
    requires t < |w.threads| && StepSnapshot(w, t, order) == Some(w')
    requires ThreadKnows(w, t) && LinksMatch(w) && RegistryRight(w)
    ensures Moves(w, w', t) && ThreadKnows(w', t)
  {
    if w.threads[t].pc.SnapRead? {
      SnapshotReadSelf(w, t, order, w');
    } else {
      SnapshotOtherSelf(w, t, order, w');
    }
  }

  lemma SnapshotDrain(w: World, t: Tid, order: seq<string>, w': World)
    requires t < |w.threads| && StepSnapshot(w, t, order) == Some(w')
    requires ThreadKnows(w, t)
    ensures Moves(w, w', t) && DrainEffect(w, w', t)
  {
    var pc := w.threads[t].pc;
    if pc == SnapRead(Drain) {
      forall id | id in w.reg.conns
        ensures CloseTask(id) in Plan(Drain, order)
      {
        var i :| 0 <= i < |order| && order[i] == id;
        assert Plan(Drain, order)[i] == CloseTask(id);
      }
    }
  }

  lemma PushControl(w: World, t: Tid, w': World)
    requires t < |w.threads| && StepPush(w, t) == Some(w')
    requires ThreadKnows(w, t)
    ensures ControlEffects(w, w', t)
  {
  }

  lemma PushData(w: World, t: Tid, w': World)
    requires t < |w.threads| && StepPush(w, t) == Some(w')
    requires ThreadKnows(w, t)
    ensures DataEffects(w, w', t)
  {
  }

  lemma PushSelf(w: World, t: Tid, w': World)
    requires t < |w.threads| && StepPush(w, t) == Some(w')
    requires ThreadKnows(w, t)
    ensures Moves(w, w', t) && ThreadKnows(w', t)
  {
  }

  lemma PushDrain(w: World, t: Tid, w': World)
    requires t < |w.threads| && StepPush(w, t) == Some(w')
    requires ThreadKnows(w, t)
    ensures Moves(w, w', t) && DrainEffect(w, w', t)
  {
  }

  lemma KeepLocks(w: World, t: Tid, w': World)
    requires LocksMatch(w) && Moves(w, w', t) && LockEffect(w, w', t)
    ensures LocksMatch(w')
  {
  }

  lemma KeepOnces(w: World, t: Tid, w': World)
    requires OncesMatch(w) && Moves(w, w', t) && OnceEffect(w, w', t)
    ensures OncesMatch(w')
  {
  }

  lemma KeepThreads(w: World, t: Tid, w': World)
    requires ThreadsKnow(w) && DataEffects(w, w', t) && ThreadKnows(w', t)
    ensures ThreadsKnow(w')
  {
    forall u | 0 <= u < |w'.threads|
      ensures ThreadKnows(w', u)
    {
      assert ThreadKnows(w, u) && ThreadKnows(w, t);
    }
  }

  lemma KeepKnownConns(w: World, t: Tid, w': World)
    requires LinksMatch(w) && DataEffects(w, w', t) && ThreadKnows(w, t)
    ensures forall id | id in w'.reg.conns :: KnownLink(w', id)
  {
  }

  lemma KeepGoneConns(w: World, t: Tid, w': World)
    requires LinksMatch(w) && OncesMatch(w) && DataEffects(w, w', t) && ThreadKnows(w, t)
    ensures forall id | id in w'.links && w'.links[id].once.Done? :: id !in w'.reg.conns
  {
  }

  lemma KeepLinks(w: World, t: Tid, w': World)
    requires LinksMatch(w) && OncesMatch(w) && DataEffects(w, w', t) && ThreadKnows(w, t)
    ensures LinksMatch(w')
  {
    KeepKnownConns(w, t, w');
    KeepGoneConns(w, t, w');
    KeepBuiltIdle(w, t, w');
    KeepUnlisted(w, t, w');
  }

  lemma KeepBuiltIdle(w: World, t: Tid, w': World)
    requires LinksMatch(w) && OncesMatch(w) && Moves(w, w', t) && OnceEffect(w, w', t) && StageEffect(w, w', t) && ThreadKnows(w, t)
    ensures forall id | id in w'.links && w'.links[id].stage.Built? :: w'.links[id].once.Idle?
  {
  }

  /** A close that has called back never finds its connection in the registry again. */
  lemma KeepUnlisted(w: World, t: Tid, w': World)
    requires LinksMatch(w) && OncesMatch(w) && Moves(w, w', t) && RegistryEffect(w, w', t) && ThreadKnows(w, t)
    ensures forall u | 0 <= u < |w'.threads| && (w'.threads[u].pc.BackUnlock? || w'.threads[u].pc.CloseLeave?) ::
              w'.threads[u].pc.id !in w'.reg.conns
  {
  }

  lemma KeepRegistry(w: World, t: Tid, w': World)
    requires RegistryRight(w) && LocksMatch(w) && LinksMatch(w)
    requires Moves(w, w', t) && RegistryEffect(w, w', t) && ThreadKnows(w, t)
    ensures RegistryRight(w')
  {
    var pc := w.threads[t].pc;
    match pc {
      case RegInsert(c) =>
        InsertAgreesIff(w.reg, c);
        InsertWithinLimit(w.reg, c, w.maxPerSubject);
      case UnregRemove(id) =>
        RemoveAgrees(w.reg, id);
        RemoveWithinLimit(w.reg, id, w.maxPerSubject);
      case BackRemove(id) =>
        RemoveAgrees(w.reg, id);
        RemoveWithinLimit(w.reg, id, w.maxPerSubject);
      case _ =>
    }
  }

  lemma KeepDrain(w: World, t: Tid, w': World)
    requires DrainOnTrack(w) && LocksMatch(w) && RegistryRight(w)
    requires Moves(w, w', t) && RegistryEffect(w, w', t) && DrainEffect(w, w', t)
    ensures DrainOnTrack(w')
  {
    if PastSnapshot(w') {
      var d := w'.drainer.value;
      if PastSnapshot(w) {
        assert !w.threads[t].pc.RegInsert?;
        if w.threads[t].pc.UnregRemove? || w.threads[t].pc.BackRemove? {
          RemoveAgrees(w.reg, w.threads[t].pc.id);
        }
      } else {
        assert w.threads[d].pc == SnapRead(Drain) && d == t;
        assert HoldsRead(w.threads[t].pc) && w.writer == None;
        forall u | 0 <= u < |w'.threads|
          ensures !w'.threads[u].pc.RegInsert?
        {
          assert !HoldsWrite(w.threads[u].pc);
        }
      }
    }
  }

  lemma StepKeepsInv(w: World, t: Tid, order: seq<string>, w': World)
    requires Inv(w) && t < |w.threads| && Step(w, t, order) == Some(w')
    ensures Inv(w')
  {
    assert ThreadKnows(w, t);
    StepIsEffective(w, t, order, w');
    KeepLocks(w, t, w');
    KeepOnces(w, t, w');
    KeepThreads(w, t, w');
    KeepLinks(w, t, w');
    KeepRegistry(w, t, w');
    KeepDrain(w, t, w');
  }

  lemma StepIsEffective(w: World, t: Tid, order: seq<string>, w': World)
    requires t < |w.threads| && ThreadKnows(w, t) && LinksMatch(w) && RegistryRight(w)
    requires Step(w, t, order) == Some(w')
    ensures ControlEffects(w, w', t) && DataEffects(w, w', t) && ThreadKnows(w', t) && DrainEffect(w, w', t)
  {
    match PartOf(w.threads[t].pc) {
      case TaskPart =>
        TaskMoves(w, t, w'); TaskLock(w, t, w'); TaskOnces(w, t, w'); TaskStages(w, t, w');
        TaskRegistry(w, t, w'); TaskSelf(w, t, w'); TaskDrain(w, t, w');
      case RegisterPart =>
        RegisterMoves(w, t, w'); RegisterLock(w, t, w'); RegisterOnces(w, t, w'); RegisterStages(w, t, w');
        RegisterRegistry(w, t, w'); RegisterSelf(w, t, w'); RegisterDrain(w, t, w');
      case UnregisterPart =>
        UnregisterControl(w, t, w'); UnregisterData(w, t, w'); UnregisterSelf(w, t, w'); UnregisterDrain(w, t, w');
      case ClosePart =>
        CloseMoves(w, t, w'); CloseLock(w, t, w'); CloseOnces(w, t, w'); CloseStages(w, t, w');
        CloseRegistry(w, t, w'); CloseSelf(w, t, w'); CloseDrain(w, t, w');
      case SnapshotPart =>
        SnapshotControl(w, t, order, w'); SnapshotData(w, t, order, w');
        SnapshotSelf(w, t, order, w'); SnapshotDrain(w, t, order, w');
      case PushPart =>
        PushControl(w, t, w'); PushData(w, t, w'); PushSelf(w, t, w'); PushDrain(w, t, w');
    }
  }

  /** A loop step changes one connection's queue and nothing the registry or the calls depend on. */
  lemma LinkUpdateKeepsInv(w: World, id: string, l: Link)
    requires Inv(w) && id in w.links && l.stage == w.links[id].stage && l.once == w.links[id].once
    ensures Inv(SetLink(w, id, l))
  {
    LinkUpdateKeepsThreads(w, id, l);
    LinkUpdateKeepsLinks(w, id, l);
  }

  lemma LinkUpdateKeepsThreads(w: World, id: string, l: Link)
    requires ThreadsKnow(w) && id in w.links && l.stage == w.links[id].stage
    ensures ThreadsKnow(SetLink(w, id, l))
  {
    var w' := SetLink(w, id, l);
    forall t | 0 <= t < |w'.threads|
      ensures ThreadKnows(w', t)
    {
      assert ThreadKnows(w, t);
    }
  }

  lemma LinkUpdateKeepsLinks(w: World, id: string, l: Link)
    requires OncesMatch(w) && LinksMatch(w) && id in w.links && l.stage == w.links[id].stage && l.once == w.links[id].once
    ensures OncesMatch(SetLink(w, id, l)) && LinksMatch(SetLink(w, id, l))
  {
  }

  lemma SpawnKeepsThreads(w: World, pc: Pc, todo: seq<Task>)
    requires ThreadsKnow(w)
    requires pc.UnregLock? || pc.SnapLock? || pc.DrainSwap? || pc.Next?
    requires if pc.Next? then forall i | 0 <= i < |todo| :: KnownLink(w, todo[i].id) else todo == []
    ensures ThreadsKnow(Spawn(w, pc, todo))
  {
    var w' := Spawn(w, pc, todo);
    forall t | 0 <= t < |w'.threads|
      ensures ThreadKnows(w', t)
    {
      if t < |w.threads| {
        assert ThreadKnows(w, t);
      }
    }
  }

  lemma SpawnKeepsControl(w: World, pc: Pc, todo: seq<Task>)
    requires LocksMatch(w) && OncesMatch(w)
    requires pc.UnregLock? || pc.SnapLock? || pc.DrainSwap? || pc.Next?
    ensures LocksMatch(Spawn(w, pc, todo)) && OncesMatch(Spawn(w, pc, todo))
  {
  }

  lemma SpawnKeepsInv(w: World, pc: Pc, todo: seq<Task>)
    requires Inv(w)
    requires pc.UnregLock? || pc.SnapLock? || pc.DrainSwap? || pc.Next?
    requires if pc.Next? then forall i | 0 <= i < |todo| :: KnownLink(w, todo[i].id) else todo == []
    ensures Inv(Spawn(w, pc, todo))
  {
    SpawnKeepsThreads(w, pc, todo);
    SpawnKeepsControl(w, pc, todo);
    SpawnKeepsRest(w, pc, todo);
  }

  lemma SpawnKeepsRest(w: World, pc: Pc, todo: seq<Task>)
    requires LinksMatch(w) && RegistryRight(w) && DrainOnTrack(w)
    requires pc.UnregLock? || pc.SnapLock? || pc.DrainSwap? || pc.Next?
    ensures LinksMatch(Spawn(w, pc, todo)) && RegistryRight(Spawn(w, pc, todo)) && DrainOnTrack(Spawn(w, pc, todo))
  {
  }

  lemma RegisterCallKeepsThreads(w: World, c: Info, capacity: nat)
    requires ThreadsKnow(w) && c.id !in w.links
    ensures ThreadsKnow(Spawn(SetLink(w, c.id, FreshLink(capacity, |w.threads|)), RegTest(c), []))
  {
    var w' := Spawn(SetLink(w, c.id, FreshLink(capacity, |w.threads|)), RegTest(c), []);
    forall t | 0 <= t < |w'.threads|
      ensures ThreadKnows(w', t)
    {
      if t < |w.threads| {
        assert ThreadKnows(w, t);
      }
    }
  }

  lemma RegisterCallKeepsInv(w: World, c: Info, capacity: nat)
    requires Inv(w) && c.id !in w.links
    ensures Inv(Spawn(SetLink(w, c.id, FreshLink(capacity, |w.threads|)), RegTest(c), []))
  {
    var w' := Spawn(SetLink(w, c.id, FreshLink(capacity, |w.threads|)), RegTest(c), []);
    RegisterCallKeepsThreads(w, c, capacity);
    RegisterCallKeepsControl(w, c, capacity, w');
    RegisterCallKeepsRest(w, c, capacity, w');
  }

  lemma RegisterCallKeepsControl(w: World, c: Info, capacity: nat, w': World)
    requires LocksMatch(w) && OncesMatch(w) && c.id !in w.links
    requires w' == Spawn(SetLink(w, c.id, FreshLink(capacity, |w.threads|)), RegTest(c), [])
    ensures LocksMatch(w') && OncesMatch(w')
  {
  }

  lemma RegisterCallKeepsRest(w: World, c: Info, capacity: nat, w': World)
    requires LinksMatch(w) && RegistryRight(w) && DrainOnTrack(w) && c.id !in w.links
    requires w' == Spawn(SetLink(w, c.id, FreshLink(capacity, |w.threads|)), RegTest(c), [])
    ensures LinksMatch(w') && RegistryRight(w') && DrainOnTrack(w')
  {
  }

  lemma LoopKeepsInv(w: World, id: string, m: Move)
    requires Inv(w) && (m == LoopTake(id) || m == LoopWrote(id)) && Apply(w, m).Some?
    ensures Inv(Apply(w, m).value)
  {
    LinkUpdateKeepsInv(w, id, Apply(w, m).value.links[id]);
  }

  lemma LoopExitKeepsInv(w: World, id: string)
    requires Inv(w) && Apply(w, LoopExit(id)).Some?
    ensures Inv(Apply(w, LoopExit(id)).value)
  {
    LinkUpdateKeepsInv(w, id, w.links[id].(loop := Exited));
    SpawnKeepsInv(SetLink(w, id, w.links[id].(loop := Exited)), Next, [CloseTask(id)]);
  }

  lemma ApplyKeepsInv(w: World, m: Move)
    requires Inv(w) && Apply(w, m).Some?
    ensures Inv(Apply(w, m).value)
  {
    match m {
      case CallRegister(c, capacity) => RegisterCallKeepsInv(w, c, capacity);
      case CallUnregister(id) => SpawnKeepsInv(w, UnregLock(id), []);
      case CallSnapshot(why) => SpawnKeepsInv(w, SnapLock(why), []);
      case CallDrain => SpawnKeepsInv(w, DrainSwap, []);
      case Run(t, order) => StepKeepsInv(w, t, order, Apply(w, m).value);
      case LoopTake(id) => LoopKeepsInv(w, id, m);
      case LoopWrote(id) => LoopKeepsInv(w, id, m);
      case LoopExit(id) => LoopExitKeepsInv(w, id);
    }
  }

  lemma {:induction false} RunKeepsInv(w: World, moves: seq<Move>)
    requires Inv(w) && After(w, moves).Some?
    ensures Inv(After(w, moves).value)
    decreases |moves|
  {
    if moves != [] {
      ApplyKeepsInv(w, moves[0]);
      RunKeepsInv(Apply(w, moves[0]).value, moves[1..]);
    }
  }

  lemma ReachableInv(max: nat, w: World)
    requires Reachable(max, w)
    ensures Inv(w) && w.maxPerSubject == max
  {
    var moves :| After(Init(max), moves) == Some(w);
    assert Inv(Init(max));
    RunKeepsInv(Init(max), moves);
    RunKeepsMax(Init(max), moves);
  }

  lemma {:induction false} RunKeepsMax(w: World, moves: seq<Move>)
    requires After(w, moves).Some?
    ensures After(w, moves).value.maxPerSubject == w.maxPerSubject
    decreases |moves|
  {
    if moves != [] {
      ApplyKeepsMax(w, moves[0]);
      RunKeepsMax(Apply(w, moves[0]).value, moves[1..]);
    }
  }

  lemma ApplyKeepsMax(w: World, m: Move)
    requires Apply(w, m).Some?
    ensures Apply(w, m).value.maxPerSubject == w.maxPerSubject
  {
  }

  // ----- main results -----

  /**
   In every reachable state the two indexes are the grouping of the id map with no empty
   bucket, so the sizes that `Stats` reports are exact, and no subject is over its limit.
   */
  lemma IndexAgreement(max: nat, w: World)
    requires Reachable(max, w)
    ensures Agrees(w.reg) && forall id | id in w.reg.conns :: w.reg.conns[id].id == id
    ensures forall subject :: Bucket(w.reg.bySubject, subject) == OfSubject(w.reg.conns, subject)
    ensures forall channel :: Bucket(w.reg.byChannel, channel) == OfChannel(w.reg.conns, channel)
    ensures forall s | s in w.reg.bySubject :: 0 < |w.reg.bySubject[s]| <= max
    ensures forall ch | ch in w.reg.byChannel :: 0 < |w.reg.byChannel[ch]|
  {
    ReachableInv(max, w);
    BucketsByFields(w.reg);
  }

  /** The BeginDrain call that won the swap has returned. */
  predicate Drained(w: World) {
    w.drainer.Some? && w.drainer.value < |w.threads| && w.threads[w.drainer.value].pc.Returned?
  }

  lemma DrainedMeansEmpty(w: World)
    requires Inv(w) && Drained(w)
    ensures w.reg == Empty()
  {
    assert ThreadKnows(w, w.drainer.value);
    assert w.reg.conns == map[];
    ConnsDetermineIndexes(w.reg, Empty());
  }

  lemma DrainedStays(w: World, m: Move)
    requires Inv(w) && Drained(w) && Apply(w, m).Some?
    ensures Drained(Apply(w, m).value)
  {
    if m.Run? {
      StepKeepsDrained(w, m.t, m.order, Apply(w, m).value);
    }
  }

  lemma StepKeepsDrained(w: World, t: Tid, order: seq<string>, w': World)
    requires Inv(w) && Drained(w) && t < |w.threads| && Step(w, t, order) == Some(w')
    ensures Drained(w')
  {
    assert ThreadKnows(w, t);
    StepIsEffective(w, t, order, w');
  }

  /**
   When the BeginDrain call that won the swap returns, the registry is empty, and it is still
   empty after any further moves: calls to Register included.
   */
  lemma {:induction false} DrainSafety(max: nat, w: World, moves: seq<Move>)
    requires Reachable(max, w) && Drained(w) && After(w, moves).Some?
    ensures w.reg == Empty() && After(w, moves).value.reg == Empty()
  {
    ReachableInv(max, w);
    DrainedMeansEmpty(w);
    DrainedRun(w, moves);
  }

  lemma {:induction false} DrainedRun(w: World, moves: seq<Move>)
    requires Inv(w) && Drained(w) && After(w, moves).Some?
    ensures After(w, moves).value.reg == Empty()
    decreases |moves|
  {
    if moves == [] {
      DrainedMeansEmpty(w);
    } else {
      ApplyKeepsInv(w, moves[0]);
      DrainedStays(w, moves[0]);
      DrainedRun(Apply(w, moves[0]).value, moves[1..]);
    }
  }
}
