/**
 The broker under concurrency. Every call in progress is a thread with a program
 counter; a step is one lock operation, one critical section, one atomic access or one
 channel operation, and any interleaving of steps is a run. The registry lock and each
 connection's `closeOnce` are modelled as things a thread can hold and others wait for.
 */
module BrokerMachine {
  import opened Wrappers
  import opened Registry

  type Event = nat
  type Info = Conn<()>
  type Tid = nat

  // ----- connections -----

  /** sync.Once around the body of Close. */
  datatype Once = Idle | Running(owner: Tid) | Done

  /** A connection is built for one Register call, and started when that call inserts it. */
  datatype Stage = Built(registrar: Tid) | Started

  datatype LoopPc = Waiting | Writing | Exited

  datatype Link = Link(
    capacity: nat,
    stage: Stage,
    once: Once,
    closed: bool,
    loop: LoopPc,
    queue: seq<Event>,
    inFlight: seq<Event>,
    accepted: seq<Event>,
    written: seq<Event>)

  // ----- threads -----

  /** What a snapshot is taken for. A publish of a nil event does nothing with its snapshot. */
  datatype Purpose =
    | Drain
    | Revoke(subject: nat)
    | ToSubject(subject: nat, evt: Option<Event>)
    | ToChannel(channel: string, evt: Option<Event>)

  datatype Task = CloseTask(id: string) | EnqueueTask(id: string, evt: Event) | KickTask(id: string)

  datatype Pc =
    | Next
    | RegTest(c: Info) | RegLock(c: Info) | RegCheck(c: Info) | RegInsert(c: Info) | RegUnlock
    | UnregLock(id: string) | UnregRemove(id: string) | UnregUnlock(id: string, found: bool)
    | CloseMark(id: string) | BackLock(id: string) | BackRemove(id: string) | BackUnlock(id: string) | CloseLeave(id: string)
    | SnapLock(why: Purpose) | SnapRead(why: Purpose) | SnapUnlock
    | Push(id: string, evt: Event)
    | DrainSwap
    | Returned

  /** `todo` is what the call still has to do; the counters describe the publish it performs, if any. */
  datatype Thread = Thread(pc: Pc, todo: seq<Task>, snapshot: nat, delivered: nat, kicked: nat)

  datatype World = World(
    maxPerSubject: nat,
    reg: Registry<()>,
    draining: bool,
    drainer: Option<Tid>,
    dropped: nat,
    writer: Option<Tid>,
    readers: set<Tid>,
    links: map<string, Link>,
    threads: seq<Thread>)

  function Init(max: nat): World {
    World(max, Empty(), false, None, 0, None, {}, map[], [])
  }

  // ----- steps of a thread -----

  function Goto(w: World, t: Tid, pc: Pc): World
    requires t < |w.threads|
  {
    w.(threads := w.threads[t := w.threads[t].(pc := pc)])
  }

  function Set(w: World, t: Tid, th: Thread): World
    requires t < |w.threads|
  {
    w.(threads := w.threads[t := th])
  }

  function SetLink(w: World, id: string, l: Link): World {
    w.(links := w.links[id := l])
  }

  predicate LockFree(w: World) {
    w.writer == None && w.readers == {}
  }

  function Selected(reg: Registry<()>, why: Purpose): map<string, Info> {
    match why
    case Drain => reg.conns
    case Revoke(s) => Bucket(reg.bySubject, s)
    case ToSubject(s, _) => Bucket(reg.bySubject, s)
    case ToChannel(ch, _) => Bucket(reg.byChannel, ch)
  }

  /** `order` lists the keys of a map once each: the order Go happened to iterate in. */
  predicate Lists(order: seq<string>, ids: set<string>) {
    && (forall i | 0 <= i < |order| :: order[i] in ids)
    && (forall id | id in ids :: id in order)
    && (forall i, j | 0 <= i < j < |order| :: order[i] != order[j])
  }

  /** What a call does with the connections of its snapshot. */
  function Plan(why: Purpose, order: seq<string>): seq<Task> {
    match why
    case Drain => seq(|order|, i requires 0 <= i < |order| => CloseTask(order[i]))
    case Revoke(_) => seq(|order|, i requires 0 <= i < |order| => CloseTask(order[i]))
    case ToSubject(_, evt) =>
      if evt.None? then [] else seq(|order|, i requires 0 <= i < |order| => EnqueueTask(order[i], evt.value))
    case ToChannel(_, evt) =>
      if evt.None? then [] else seq(|order|, i requires 0 <= i < |order| => EnqueueTask(order[i], evt.value))
  }

  predicate IsPublish(why: Purpose) {
    (why.ToSubject? || why.ToChannel?) && why.evt.Some?
  }

  /** The head of the task list, when no task is in progress. */
  function BeginTask(w: World, t: Tid): Option<World>
    requires t < |w.threads|
  {
    var th := w.threads[t];
    if th.todo == [] then Some(Goto(w, t, Returned))
    else
      var rest := th.(todo := th.todo[1..]);
      match th.todo[0]
      case CloseTask(id) =>
        if id !in w.links then None
        else (
          match w.links[id].once
          case Idle => Some(SetLink(Set(w, t, rest.(pc := CloseMark(id))), id, w.links[id].(once := Running(t))))
          case Running(_) => None  // Once.Do waits for the call in progress
          case Done => Some(Set(w, t, rest))
        )
      case EnqueueTask(id, evt) =>
        if id !in w.links then None
        else if w.links[id].closed then Some(Set(w, t, rest.(todo := rest.todo + [KickTask(id)])))
        else Some(Set(w, t, rest.(pc := Push(id, evt))))
      case KickTask(id) =>
        Some(Set(w.(dropped := w.dropped + 1), t, rest.(pc := UnregLock(id), kicked := th.kicked + 1)))
  }

  /** Register: an unlocked test, then lock, test again, insert, unlock. */
  function StepRegister(w: World, t: Tid): Option<World>
    requires t < |w.threads|
  {
    match w.threads[t].pc
    case RegTest(c) => Some(Goto(w, t, if w.draining then Next else RegLock(c)))
    case RegLock(c) => if LockFree(w) then Some(Goto(w.(writer := Some(t)), t, RegCheck(c))) else None
    case RegCheck(c) =>
      Some(Goto(w, t, if w.draining || TooMany(w.reg, c, w.maxPerSubject) then RegUnlock else RegInsert(c)))
    case RegInsert(c) =>
      if c.id !in w.links then None
      else Some(Goto(SetLink(w.(reg := Insert(w.reg, c)), c.id, w.links[c.id].(stage := Started)), t, RegUnlock))
    case RegUnlock => Some(Goto(w.(writer := None), t, Next))
    case _ => None
  }

  /** Unregister: remove under the lock, then close the connection that was found. */
  function StepUnregister(w: World, t: Tid): Option<World>
    requires t < |w.threads|
  {
    var th := w.threads[t];
    match th.pc
    case UnregLock(id) => if LockFree(w) then Some(Goto(w.(writer := Some(t)), t, UnregRemove(id))) else None
    case UnregRemove(id) => Some(Goto(w.(reg := Remove(w.reg, id)), t, UnregUnlock(id, id in w.reg.conns)))
    case UnregUnlock(id, found) =>
      Some(Set(w.(writer := None), t, th.(pc := Next, todo := if found then [CloseTask(id)] + th.todo else th.todo)))
    case _ => None
  }

  /** The body of Close: signal `closed`, then call back into the broker, then finish the once. */
  function StepClose(w: World, t: Tid): Option<World>
    requires t < |w.threads|
  {
    match w.threads[t].pc
    case CloseMark(id) =>
      if id !in w.links then None
      else Some(Goto(SetLink(w, id, w.links[id].(closed := true)), t, BackLock(id)))
    case BackLock(id) => if LockFree(w) then Some(Goto(w.(writer := Some(t)), t, BackRemove(id))) else None
    case BackRemove(id) => Some(Goto(w.(reg := Remove(w.reg, id)), t, BackUnlock(id)))
    case BackUnlock(id) => Some(Goto(w.(writer := None), t, CloseLeave(id)))
    case CloseLeave(id) =>
      if id !in w.links then None
      else Some(Goto(SetLink(w, id, w.links[id].(once := Done)), t, Next))
    case _ => None
  }

  /** A snapshot under the read lock, and BeginDrain's compare-and-swap before it. */
  function StepSnapshot(w: World, t: Tid, order: seq<string>): Option<World>
    requires t < |w.threads|
  {
    match w.threads[t].pc
    case DrainSwap =>
      Some(if w.draining then Goto(w, t, Next)
           else Goto(w.(draining := true, drainer := Some(t)), t, SnapLock(Drain)))
    case SnapLock(why) => if w.writer == None then Some(Goto(w.(readers := w.readers + {t}), t, SnapRead(why))) else None
    case SnapRead(why) =>
      if !Lists(order, Selected(w.reg, why).Keys) then None
      else Some(Set(w, t, w.threads[t].(pc := SnapUnlock, todo := Plan(why, order),
                                        snapshot := if IsPublish(why) then |order| else 0)))
    case SnapUnlock => Some(Goto(w.(readers := w.readers - {t}), t, Next))
    case _ => None
  }

  /** The non-blocking send of Enqueue: a full queue makes the connection a slow consumer. */
  function StepPush(w: World, t: Tid): Option<World>
    requires t < |w.threads|
  {
    var th := w.threads[t];
    match th.pc
    case Push(id, evt) =>
      if id !in w.links then None
      else
        var l := w.links[id];
        if |l.queue| < l.capacity then
          Some(SetLink(Set(w, t, th.(pc := Next, delivered := th.delivered + 1)), id,
                       l.(queue := l.queue + [evt], accepted := l.accepted + [evt])))
        else Some(Set(w, t, th.(pc := Next, todo := th.todo + [KickTask(id)])))
    case _ => None
  }

  datatype Part = TaskPart | RegisterPart | UnregisterPart | ClosePart | SnapshotPart | PushPart

  function PartOf(pc: Pc): Part {
    match pc
    case Next => TaskPart
    case Returned => TaskPart
    case RegTest(_) => RegisterPart
    case RegLock(_) => RegisterPart
    case RegCheck(_) => RegisterPart
    case RegInsert(_) => RegisterPart
    case RegUnlock => RegisterPart
    case UnregLock(_) => UnregisterPart
    case UnregRemove(_) => UnregisterPart
    case UnregUnlock(_, _) => UnregisterPart
    case Push(_, _) => PushPart
    case SnapLock(_) => SnapshotPart
    case SnapRead(_) => SnapshotPart
    case SnapUnlock => SnapshotPart
    case DrainSwap => SnapshotPart
    case _ => ClosePart
  }

  /** One step of thread `t`; None when it is blocked, has returned, or `order` is no listing of the snapshot. */
  function Step(w: World, t: Tid, order: seq<string>): Option<World>
    requires t < |w.threads|
  {
    match PartOf(w.threads[t].pc)
    case TaskPart => if w.threads[t].pc.Returned? then None else BeginTask(w, t)
    case RegisterPart => StepRegister(w, t)
    case UnregisterPart => StepUnregister(w, t)
    case ClosePart => StepClose(w, t)
    case SnapshotPart => StepSnapshot(w, t, order)
    case PushPart => StepPush(w, t)
  }

  // ----- all moves -----

  datatype Move =
    | CallRegister(c: Info, capacity: nat)
    | CallUnregister(id: string)
    | CallSnapshot(why: Purpose)
    | CallDrain
    | Run(t: Tid, order: seq<string>)
    | LoopTake(id: string)
    | LoopWrote(id: string)
    | LoopExit(id: string)

  function Spawn(w: World, pc: Pc, todo: seq<Task>): World {
    w.(threads := w.threads + [Thread(pc, todo, 0, 0, 0)])
  }

  function FreshLink(capacity: nat, t: Tid): Link {
    Link(capacity, Built(t), Idle, false, Waiting, [], [], [], [])
  }

  /**
   A call starts, a call in progress takes a step, or a connection's loop does: take an
   event off the queue, finish writing it, or give up (write or heartbeat failure,
   cancelled context, missing writer) and close the connection.
   */
  function Apply(w: World, m: Move): Option<World> {
    match m
    case CallRegister(c, capacity) =>
      if c.id in w.links then None
      else Some(Spawn(SetLink(w, c.id, FreshLink(capacity, |w.threads|)), RegTest(c), []))
    case CallUnregister(id) => Some(Spawn(w, UnregLock(id), []))
    case CallSnapshot(why) => if why.Drain? then None else Some(Spawn(w, SnapLock(why), []))
    case CallDrain => Some(Spawn(w, DrainSwap, []))
    case Run(t, order) => if t < |w.threads| then Step(w, t, order) else None
    case LoopTake(id) =>
      if id !in w.links || !w.links[id].stage.Started? || !w.links[id].loop.Waiting? || w.links[id].queue == [] then None
      else
        var l := w.links[id];
        Some(SetLink(w, id, l.(loop := Writing, inFlight := [l.queue[0]], queue := l.queue[1..])))
    case LoopWrote(id) =>
      if id !in w.links || !w.links[id].loop.Writing? then None
      else
        var l := w.links[id];
        Some(SetLink(w, id, l.(loop := Waiting, inFlight := [], written := l.written + l.inFlight)))
    case LoopExit(id) =>
      if id !in w.links || !w.links[id].stage.Started? || w.links[id].loop.Exited? then None
      else Some(Spawn(SetLink(w, id, w.links[id].(loop := Exited)), Next, [CloseTask(id)]))
  }

  /** The world after a list of moves, if each of them was possible. */
  function After(w: World, moves: seq<Move>): Option<World>
    decreases |moves|
  {
    if moves == [] then Some(w)
    else
      var w' := Apply(w, moves[0]);
      if w'.None? then None else After(w'.value, moves[1..])
  }

  ghost predicate Reachable(max: nat, w: World) {
    exists moves :: After(Init(max), moves) == Some(w)
  }
}
