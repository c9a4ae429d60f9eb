/** What the calls of the broker machine have achieved when they return: closes that are complete, and registration. */
module BrokerClosing {
  import opened Wrappers
  import opened Registry
  import opened BrokerMachine
  import opened BrokerSafety
  import opened BrokerProgress
  import opened BrokerDelivery

  // ----- which connections are closed -----

  /** A connection is closed once a Close of it has signalled that, and open before any. */
  predicate ClosedMatches(w: World, id: string)
    requires id in w.links
  {
    var l := w.links[id];
    l.closed <==> l.once.Done? || (l.once.Running? && l.once.owner < |w.threads| && w.threads[l.once.owner].pc != CloseMark(id))
  }

  ghost predicate ClosedRight(w: World) {
    forall id | id in w.links :: ClosedMatches(w, id)
  }

  /** Only the signal of a Close closes, and Close begins with it. */
  predicate CloseEffect(w: World, w': World, t: Tid)
    requires t < |w.threads| == |w'.threads| && w'.links.Keys == w.links.Keys
  {
    var pc, pc' := w.threads[t].pc, w'.threads[t].pc;
    && (forall id | id in w.links :: w'.links[id].closed == (w.links[id].closed || pc == CloseMark(id)))
    && (pc'.CloseMark? <==> Closing(pc).None? && Closing(pc').Some?)
  }

  lemma TaskCloses(w: World, t: Tid, w': World)
    requires t < |w.threads| && BeginTask(w, t) == Some(w') && w.threads[t].pc.Next? && Moves(w, w', t)
    ensures CloseEffect(w, w', t)
  {
  }

  lemma CloseCloses(w: World, t: Tid, w': World)
    requires t < |w.threads| && StepClose(w, t) == Some(w') && Moves(w, w', t)
    ensures CloseEffect(w, w', t)
  {
  }

  lemma StepCloses(w: World, t: Tid, order: seq<string>, w': World)
    requires t < |w.threads| && Step(w, t, order) == Some(w') && Moves(w, w', t)
    ensures CloseEffect(w, w', t)
  {
    match PartOf(w.threads[t].pc)
    case TaskPart => TaskCloses(w, t, w');
    case ClosePart => CloseCloses(w, t, w');
    case RegisterPart => RegisterCloses(w, t, w');
    case UnregisterPart => UnregisterCloses(w, t, w');
    case SnapshotPart => SnapshotCloses(w, t, order, w');
    case PushPart => PushCloses(w, t, w');
  }

  lemma RegisterCloses(w: World, t: Tid, w': World)
    requires t < |w.threads| && StepRegister(w, t) == Some(w') && Moves(w, w', t)
    ensures CloseEffect(w, w', t)
  {
  }

  lemma UnregisterCloses(w: World, t: Tid, w': World)
    requires t < |w.threads| && StepUnregister(w, t) == Some(w') && Moves(w, w', t)
    ensures CloseEffect(w, w', t)
  {
  }

  lemma SnapshotCloses(w: World, t: Tid, order: seq<string>, w': World)
    requires t < |w.threads| && StepSnapshot(w, t, order) == Some(w') && Moves(w, w', t)
    ensures CloseEffect(w, w', t)
  {
  }

  lemma PushCloses(w: World, t: Tid, w': World)
    requires t < |w.threads| && StepPush(w, t) == Some(w') && Moves(w, w', t)
    ensures CloseEffect(w, w', t)
  {
  }

  lemma KeepClosed(w: World, t: Tid, w': World)
    requires ClosedRight(w) && OncesMatch(w) && Moves(w, w', t) && OnceEffect(w, w', t) && CloseEffect(w, w', t)
    ensures ClosedRight(w')
  {
    forall id | id in w'.links
      ensures ClosedMatches(w', id)
    {
      assert ClosedMatches(w, id);
    }
  }

  lemma StepKeepsClosed(w: World, t: Tid, order: seq<string>, w': World)
    requires Inv(w) && ClosedRight(w) && t < |w.threads| && Step(w, t, order) == Some(w')
    ensures ClosedRight(w')
  {
    assert ThreadKnows(w, t);
    StepIsEffective(w, t, order, w');
    StepCloses(w, t, order, w');
    KeepClosed(w, t, w');
  }

  /** Moves that are no step of a call leave the closes in progress alone, and a new connection is open. */
  lemma OtherKeepsClosed(w: World, m: Move)
    requires OncesMatch(w) && ClosedRight(w) && !m.Run? && Apply(w, m).Some?
    ensures ClosedRight(Apply(w, m).value)
  {
    var w' := Apply(w, m).value;
    forall id | id in w'.links
      ensures ClosedMatches(w', id)
    {
      if id in w.links {
        assert ClosedMatches(w, id);
      }
    }
  }

  lemma {:induction false} RunKeepsClosed(w: World, moves: seq<Move>)
    requires Inv(w) && ClosedRight(w) && After(w, moves).Some?
    ensures ClosedRight(After(w, moves).value)
    decreases |moves|
  {
    if moves != [] {
      var w' := Apply(w, moves[0]).value;
      ApplyKeepsInv(w, moves[0]);
      if moves[0].Run? {
        StepKeepsClosed(w, moves[0].t, moves[0].order, w');
      } else {
        OtherKeepsClosed(w, moves[0]);
      }
      RunKeepsClosed(w', moves[1..]);
    }
  }

  /** A call is in the middle of closing the connection, past the signal. */
  ghost predicate IsBeingClosed(w: World, id: string) {
    exists t :: 0 <= t < |w.threads| && Closing(w.threads[t].pc) == Some(id) && !w.threads[t].pc.CloseMark?
  }

  /**
   In every reachable state a connection is closed exactly when a Close of it is complete or has
   got past its first step: nothing else closes one, and none is closed before it is registered.
   */
  lemma ClosedIffCloseIsUnderWay(max: nat, w: World)
    requires Reachable(max, w)
    ensures forall id | id in w.links :: w.links[id].closed <==> w.links[id].once.Done? || IsBeingClosed(w, id)
    ensures forall id | id in w.links && w.links[id].stage.Built? :: !w.links[id].closed
  {
    ReachableInv(max, w);
    ReachableClosed(max, w);
    forall id | id in w.links
      ensures w.links[id].closed <==> w.links[id].once.Done? || IsBeingClosed(w, id)
    {
      assert ClosedMatches(w, id);
    }
  }

  lemma ReachableClosed(max: nat, w: World)
    requires Reachable(max, w)
    ensures ClosedRight(w)
  {
    var moves :| After(Init(max), moves) == Some(w);
    assert Inv(Init(max));
    RunKeepsClosed(Init(max), moves);
  }

  // ----- a close that a call is to do is done when the call returns -----

  predicate WillClose(w: World, t: Tid, id: string)
    requires t < |w.threads|
  {
    && id in w.links
    && (w.links[id].once.Done? || CloseTask(id) in w.threads[t].todo || Closing(w.threads[t].pc) == Some(id))
  }

  /** What a thread's own step does with the closes it still has to do. */
  predicate TodoEffect(w: World, w': World, t: Tid, id: string)
    requires t < |w.threads| == |w'.threads| && id in w.links
  {
    CloseTask(id) in w.threads[t].todo ==>
      CloseTask(id) in w'.threads[t].todo || Closing(w'.threads[t].pc) == Some(id) || w.links[id].once.Done?
  }

  lemma TaskTodo(w: World, t: Tid, w': World, id: string)
    requires t < |w.threads| && BeginTask(w, t) == Some(w') && w.threads[t].pc.Next? && Moves(w, w', t) && id in w.links
    ensures TodoEffect(w, w', t, id)
  {
    var todo := w.threads[t].todo;
    if CloseTask(id) in todo && todo[0] != CloseTask(id) {
      assert todo == [todo[0]] + todo[1..];
      assert CloseTask(id) in todo[1..];
    }
  }

  lemma StepTodo(w: World, t: Tid, order: seq<string>, w': World, id: string)
    requires t < |w.threads| && ThreadKnows(w, t) && Step(w, t, order) == Some(w') && Moves(w, w', t) && id in w.links
    ensures TodoEffect(w, w', t, id)
  {
    match PartOf(w.threads[t].pc)
    case TaskPart => TaskTodo(w, t, w', id);
    case ClosePart =>
    case RegisterPart =>
    case UnregisterPart =>
    case SnapshotPart =>
    case PushPart =>
  }

  lemma StepKeepsWillClose(w: World, u: Tid, order: seq<string>, w': World, t: Tid, id: string)
    requires Inv(w) && u < |w.threads| && Step(w, u, order) == Some(w') && t < |w.threads| && WillClose(w, t, id)
    ensures t < |w'.threads| && WillClose(w', t, id)
  {
    assert ThreadKnows(w, u);
    StepIsEffective(w, u, order, w');
    StepTodo(w, u, order, w', id);
    if t == u && Closing(w.threads[t].pc) == Some(id) {
      assert w.links[id].once == Running(t);
    }
  }

  lemma OtherKeepsWillClose(w: World, m: Move, t: Tid, id: string)
    requires !m.Run? && Apply(w, m).Some? && t < |w.threads| && WillClose(w, t, id)
    ensures var w' := Apply(w, m).value; t < |w'.threads| && WillClose(w', t, id)
  {
  }

  lemma {:induction false} RunKeepsWillClose(w: World, moves: seq<Move>, t: Tid, id: string)
    requires Inv(w) && After(w, moves).Some? && t < |w.threads| && WillClose(w, t, id)
    ensures var w' := After(w, moves).value; t < |w'.threads| && WillClose(w', t, id)
    decreases |moves|
  {
    if moves != [] {
      var w' := Apply(w, moves[0]).value;
      ApplyKeepsInv(w, moves[0]);
      if moves[0].Run? {
        StepKeepsWillClose(w, moves[0].t, moves[0].order, w', t, id);
      } else {
        OtherKeepsWillClose(w, moves[0], t, id);
      }
      RunKeepsWillClose(w', moves[1..], t, id);
    }
  }

  predicate IsClosedAndGone(w: World, id: string) {
    id in w.links && w.links[id].closed && id !in w.reg.conns
  }

  /** Over any later run: when the call has returned the connection is closed and out of the registry. */
  lemma PlannedCloseIsDone(w: World, moves: seq<Move>, t: Tid, id: string)
    requires Inv(w) && ClosedRight(w) && After(w, moves).Some? && t < |w.threads| && WillClose(w, t, id)
    requires var w' := After(w, moves).value; t < |w'.threads| && w'.threads[t].pc.Returned?
    ensures IsClosedAndGone(After(w, moves).value, id)
  {
    RunKeepsInv(w, moves);
    RunKeepsClosed(w, moves);
    RunKeepsWillClose(w, moves, t, id);
    var w' := After(w, moves).value;
    assert ThreadKnows(w', t) && ClosedMatches(w', id);
  }

  /** RevokeSubject and BeginDrain close what is in their snapshot. */
  predicate Closes(why: Purpose) {
    why.Revoke? || why.Drain?
  }

  lemma SnapshotWillClose(max: nat, w: World, t: Tid, order: seq<string>, w': World, id: string)
    requires Reachable(max, w) && t < |w.threads| && w.threads[t].pc.SnapRead? && Step(w, t, order) == Some(w')
    requires Closes(w.threads[t].pc.why) && id in w.reg.conns && Concerns(w.threads[t].pc.why, w.reg.conns[id])
    ensures WillClose(w', t, id)
  {
    ReachableInv(max, w);
    SnapshotIsOfThoseConcerned(max, w, t, order, w');
    PlannedToClose(w.threads[t].pc.why, id, w'.threads[t].todo);
    SnapshotKeepsLinks(w, t, order, w');
  }

  lemma SnapshotKeepsLinks(w: World, t: Tid, order: seq<string>, w': World)
    requires t < |w.threads| && w.threads[t].pc.SnapRead? && Step(w, t, order) == Some(w') && LinksMatch(w)
    ensures w'.links == w.links && forall id | id in w.reg.conns :: id in w.links
  {
  }

  lemma PlannedToClose(why: Purpose, id: string, todo: seq<Task>)
    requires Closes(why) && IsPlanned(why, id, todo)
    ensures CloseTask(id) in todo
  {
  }

  /**
   A RevokeSubject or the draining call of BeginDrain, however it is interleaved with other calls
   and with other Closes of the same connections: when it has returned, every connection that was
   registered for its subject, or for a drain at all, when it took its snapshot is closed and gone
   from the registry.
   */
  lemma ReturnedMeansClosed(max: nat, w: World, t: Tid, order: seq<string>, moves: seq<Move>, w': World)
    requires Reachable(max, w) && t < |w.threads| && w.threads[t].pc.SnapRead? && Closes(w.threads[t].pc.why)
    requires Step(w, t, order).Some? && After(Step(w, t, order).value, moves) == Some(w')
    requires t < |w'.threads| && w'.threads[t].pc.Returned?
    ensures forall id | id in w.reg.conns && Concerns(w.threads[t].pc.why, w.reg.conns[id]) :: IsClosedAndGone(w', id)
  {
    var s := Step(w, t, order).value;
    SnapshotKeepsRight(max, w, t, order, s);
    AllWillClose(max, w, t, order, s);
    AllAreClosed(s, moves, t, w', set id | id in w.reg.conns && Concerns(w.threads[t].pc.why, w.reg.conns[id]));
  }

  lemma AllWillClose(max: nat, w: World, t: Tid, order: seq<string>, s: World)
    requires Reachable(max, w) && t < |w.threads| && w.threads[t].pc.SnapRead? && Closes(w.threads[t].pc.why)
    requires Step(w, t, order) == Some(s)
    ensures t < |s.threads|
    ensures forall id | id in w.reg.conns && Concerns(w.threads[t].pc.why, w.reg.conns[id]) :: WillClose(s, t, id)
  {
    forall id | id in w.reg.conns && Concerns(w.threads[t].pc.why, w.reg.conns[id])
      ensures WillClose(s, t, id)
    {
      SnapshotWillClose(max, w, t, order, s, id);
    }
  }

  lemma AllAreClosed(s: World, moves: seq<Move>, t: Tid, w': World, ids: set<string>)
    requires Inv(s) && ClosedRight(s) && t < |s.threads| && forall id | id in ids :: WillClose(s, t, id)
    requires After(s, moves) == Some(w') && t < |w'.threads| && w'.threads[t].pc.Returned?
    ensures forall id | id in ids :: IsClosedAndGone(w', id)
  {
    forall id | id in ids
      ensures IsClosedAndGone(w', id)
    {
      PlannedCloseIsDone(s, moves, t, id);
    }
  }

  lemma SnapshotKeepsRight(max: nat, w: World, t: Tid, order: seq<string>, s: World)
    requires Reachable(max, w) && t < |w.threads| && Step(w, t, order) == Some(s)
    ensures Inv(s) && ClosedRight(s)
  {
    ReachableInv(max, w);
    ReachableClosed(max, w);
    StepKeepsInv(w, t, order, s);
    StepKeepsClosed(w, t, order, s);
  }

  lemma Then(w: World, m: Move, rest: seq<Move>)
    ensures After(w, [m] + rest) == if Apply(w, m).None? then None else After(Apply(w, m).value, rest)
    ensures Inner(m) && OnlyInner(rest) ==> OnlyInner([m] + rest)
  {
    assert ([m] + rest)[1..] == rest;
  }

  /**
   With no call in progress, RevokeSubject can be called, and run until it has returned: then
   every connection that was registered for the subject is closed and gone from the registry.
   */
  lemma RevokeCompletes(max: nat, w: World, subject: nat) returns (moves: seq<Move>, w': World)
    requires Reachable(max, w) && AllReturned(w)
    ensures OnlyInner(moves) && After(w, [CallSnapshot(Revoke(subject))] + moves) == Some(w') && AllReturned(w')
    ensures forall id | id in w.reg.conns && OnSubject(w.reg.conns[id], subject) :: IsClosedAndGone(w', id)
  {
    var call, t := CallSnapshot(Revoke(subject)), |w.threads|;
    var r := SnapshotBegins(max, w, Revoke(subject));
    var rest;
    rest, w' := RevokeRuns(max, r, t, subject);
    moves := [Run(t, [])] + rest;
    Then(Apply(w, call).value, Run(t, []), rest);
    Then(w, call, moves);
  }

  /** The call has the read lock. */
  lemma SnapshotBegins(max: nat, w: World, why: Purpose) returns (r: World)
    requires Reachable(max, w) && AllReturned(w) && !why.Drain?
    ensures Reachable(max, r) && |r.threads| == |w.threads| + 1 && r.threads[|w.threads|].pc == SnapRead(why)
    ensures r.reg == w.reg
    ensures Apply(w, CallSnapshot(why)).Some? && Apply(Apply(w, CallSnapshot(why)).value, Run(|w.threads|, [])) == Some(r)
  {
    ReachableInv(max, w);
    NoneHoldsTheLock(w);
    r := SnapshotLocks(w, why);
    ReachesOne(max, w, CallSnapshot(why));
    ReachesOne(max, Apply(w, CallSnapshot(why)).value, Run(|w.threads|, []));
  }

  lemma SnapshotLocks(w: World, why: Purpose) returns (r: World)
    requires LockFree(w) && !why.Drain?
    ensures |r.threads| == |w.threads| + 1 && r.threads[|w.threads|].pc == SnapRead(why)
    ensures r.reg == w.reg
    ensures Apply(w, CallSnapshot(why)).Some? && Apply(Apply(w, CallSnapshot(why)).value, Run(|w.threads|, [])) == Some(r)
  {
    var s := Spawn(w, SnapLock(why), []);
    r := Goto(s.(readers := s.readers + {|w.threads|}), |w.threads|, SnapRead(why));
  }

  lemma SnapshotReads(w: World, t: Tid, why: Purpose) returns (order: seq<string>, s: World)
    requires t < |w.threads| && w.threads[t].pc == SnapRead(why)
    ensures Step(w, t, order) == Some(s)
  {
    order := ListingExists(Selected(w.reg, why).Keys);
    s := Step(w, t, order).value;
  }

  lemma RevokeRuns(max: nat, w: World, t: Tid, subject: nat) returns (moves: seq<Move>, w': World)
    requires Reachable(max, w) && t < |w.threads| && w.threads[t].pc == SnapRead(Revoke(subject))
    ensures OnlyInner(moves) && After(w, moves) == Some(w') && AllReturned(w')
    ensures forall id | id in w.reg.conns && OnSubject(w.reg.conns[id], subject) :: IsClosedAndGone(w', id)
  {
    var order, s := SnapshotReads(w, t, Revoke(subject));
    var rest;
    rest, w' := RestOfRevoke(max, w, t, order, s, subject);
    Then(w, Run(t, order), rest);
    moves := [Run(t, order)] + rest;
  }

  lemma RestOfRevoke(max: nat, w: World, t: Tid, order: seq<string>, s: World, subject: nat)
    returns (moves: seq<Move>, w': World)
    requires Reachable(max, w) && t < |w.threads| && w.threads[t].pc == SnapRead(Revoke(subject)) && Step(w, t, order) == Some(s)
    ensures OnlyInner(moves) && After(s, moves) == Some(w') && AllReturned(w')
    ensures forall id | id in w.reg.conns && OnSubject(w.reg.conns[id], subject) :: IsClosedAndGone(w', id)
  {
    SnapshotKeepsRight(max, w, t, order, s);
    moves := CallsCanReturn(s);
    w' := After(s, moves).value;
    RunKeepsThreads(s, moves);
    ReturnedMeansClosed(max, w, t, order, moves, w');
  }

  lemma NoneHoldsTheLock(w: World)
    requires LocksMatch(w) && AllReturned(w)
    ensures LockFree(w)
  {
  }

  lemma ReachesOne(max: nat, w: World, m: Move)
    requires Reachable(max, w) && Apply(w, m).Some?
    ensures Reachable(max, Apply(w, m).value)
  {
    var moves :| After(Init(max), moves) == Some(w);
    AfterBoth(Init(max), moves, [m]);
    assert [m][1..] == [];
    assert After(w, [m]) == Some(Apply(w, m).value);
    assert After(Init(max), moves + [m]) == Some(Apply(w, m).value);
  }

  lemma {:induction false} AfterBoth(w: World, moves: seq<Move>, more: seq<Move>)
    requires After(w, moves).Some?
    ensures After(w, moves + more) == After(After(w, moves).value, more)
    decreases |moves|
  {
    if moves == [] {
      assert moves + more == more;
    } else {
      assert (moves + more)[1..] == moves[1..] + more;
      AfterBoth(Apply(w, moves[0]).value, moves[1..], more);
    }
  }

  lemma {:induction false} RunKeepsThreads(w: World, moves: seq<Move>)
    requires Inv(w) && After(w, moves).Some?
    ensures |After(w, moves).value.threads| >= |w.threads|
    decreases |moves|
  {
    if moves != [] {
      ApplyKeepsInv(w, moves[0]);
      MoveKeepsThreads(w, moves[0]);
      RunKeepsThreads(Apply(w, moves[0]).value, moves[1..]);
    }
  }

  lemma MoveKeepsThreads(w: World, m: Move)
    requires Inv(w) && Apply(w, m).Some?
    ensures |Apply(w, m).value.threads| >= |w.threads|
  {
    if m.Run? {
      assert ThreadKnows(w, m.t);
      StepIsEffective(w, m.t, m.order, Apply(w, m).value);
    }
  }

  // ----- registration -----

  /** The broker refuses the connection: it is draining, or the subject has as many as it may. */
  predicate Refuses(w: World, c: Info) {
    w.draining || IsCrowded(w.reg.conns, c, w.maxPerSubject)
  }

  /** The lock is given back and the call returns. */
  function Leave(w: World, t: Tid): World
    requires t < |w.threads|
  {
    Goto(w.(writer := None), t, Returned)
  }

  lemma GotoTwice(w: World, t: Tid, pc: Pc, pc': Pc)
    requires t < |w.threads|
    ensures Goto(Goto(w, t, pc), t, pc') == Goto(w, t, pc')
  {
  }

  lemma FromNext(w: World, t: Tid) returns (moves: seq<Move>)
    requires t < |w.threads| && w.threads[t].pc.Next? && w.threads[t].todo == []
    ensures OnlyInner(moves) && After(w, moves) == Some(Goto(w, t, Returned))
  {
    Then(w, Run(t, []), []);
    moves := [Run(t, [])] + [];
  }

  lemma FromUnlock(w: World, t: Tid) returns (moves: seq<Move>)
    requires t < |w.threads| && w.threads[t].pc.RegUnlock? && w.threads[t].todo == []
    ensures OnlyInner(moves) && After(w, moves) == Some(Leave(w, t))
  {
    var s := Goto(w.(writer := None), t, Next);
    var rest := FromNext(s, t);
    GotoTwice(w.(writer := None), t, Next, Returned);
    Then(w, Run(t, []), rest);
    moves := [Run(t, [])] + rest;
  }

  /** What Register inserts, under the lock. */
  function Inserted(w: World, c: Info): World
    requires c.id in w.links
  {
    SetLink(w.(reg := Insert(w.reg, c)), c.id, w.links[c.id].(stage := Started))
  }

  lemma FromInsert(w: World, t: Tid, c: Info) returns (moves: seq<Move>)
    requires t < |w.threads| && w.threads[t].pc == RegInsert(c) && w.threads[t].todo == [] && c.id in w.links
    ensures OnlyInner(moves) && After(w, moves) == Some(Leave(Inserted(w, c), t))
  {
    var s := Goto(Inserted(w, c), t, RegUnlock);
    var rest := FromUnlock(s, t);
    GotoTwice(Inserted(w, c).(writer := None), t, RegUnlock, Returned);
    Then(w, Run(t, []), rest);
    moves := [Run(t, [])] + rest;
  }

  lemma FromCheck(w: World, t: Tid, c: Info) returns (moves: seq<Move>)
    requires t < |w.threads| && w.threads[t].pc == RegCheck(c) && w.threads[t].todo == [] && c.id in w.links && Agrees(w.reg)
    ensures OnlyInner(moves) && After(w, moves) == Some(Leave(if Refuses(w, c) then w else Inserted(w, c), t))
  {
    TooManyIff(w.reg, c, w.maxPerSubject);
    var rest;
    if Refuses(w, c) {
      rest := FromUnlock(Goto(w, t, RegUnlock), t);
      GotoTwice(w.(writer := None), t, RegUnlock, Returned);
    } else {
      rest := FromInsert(Goto(w, t, RegInsert(c)), t, c);
      GotoTwice(Inserted(w, c).(writer := None), t, RegInsert(c), Returned);
    }
    Then(w, Run(t, []), rest);
    moves := [Run(t, [])] + rest;
  }

  lemma FromLock(w: World, t: Tid, c: Info) returns (moves: seq<Move>)
    requires t < |w.threads| && w.threads[t].pc == RegLock(c) && w.threads[t].todo == [] && c.id in w.links && Agrees(w.reg)
    requires LockFree(w)
    ensures OnlyInner(moves) && After(w, moves) == Some(Leave(if Refuses(w, c) then w else Inserted(w, c), t))
  {
    var s := Goto(w.(writer := Some(t)), t, RegCheck(c));
    var rest := FromCheck(s, t, c);
    GotoTwice(w.(writer := None), t, RegCheck(c), Returned);
    GotoTwice(Inserted(w, c).(writer := None), t, RegCheck(c), Returned);
    Then(w, Run(t, []), rest);
    moves := [Run(t, [])] + rest;
  }

  lemma FromTest(w: World, t: Tid, c: Info) returns (moves: seq<Move>)
    requires t < |w.threads| && w.threads[t].pc == RegTest(c) && w.threads[t].todo == [] && c.id in w.links && Agrees(w.reg)
    requires LockFree(w)
    ensures OnlyInner(moves) && After(w, moves) == Some(Leave(if Refuses(w, c) then w else Inserted(w, c), t))
  {
    if w.draining {
      moves := FromRefusal(w, t, c);
    } else {
      moves := FromFirstTest(w, t, c);
    }
  }

  lemma FromFirstTest(w: World, t: Tid, c: Info) returns (moves: seq<Move>)
    requires t < |w.threads| && w.threads[t].pc == RegTest(c) && w.threads[t].todo == [] && c.id in w.links && Agrees(w.reg)
    requires LockFree(w) && !w.draining
    ensures OnlyInner(moves) && After(w, moves) == Some(Leave(if Refuses(w, c) then w else Inserted(w, c), t))
  {
    var rest := FromLock(Goto(w, t, RegLock(c)), t, c);
    GotoTwice(w.(writer := None), t, RegLock(c), Returned);
    GotoTwice(Inserted(w, c).(writer := None), t, RegLock(c), Returned);
    Then(w, Run(t, []), rest);
    moves := [Run(t, [])] + rest;
  }

  lemma FromRefusal(w: World, t: Tid, c: Info) returns (moves: seq<Move>)
    requires t < |w.threads| && w.threads[t].pc == RegTest(c) && w.threads[t].todo == [] && w.draining && w.writer == None
    ensures OnlyInner(moves) && After(w, moves) == Some(Leave(w, t))
  {
    var rest := FromNext(Goto(w, t, Next), t);
    GotoTwice(w, t, Next, Returned);
    Then(w, Run(t, []), rest);
    moves := [Run(t, [])] + rest;
  }

  /** A call of Register on its own registers the connection exactly when the broker does not refuse it. */
  lemma RegisterTakesEffect(max: nat, w: World, c: Info, capacity: nat) returns (moves: seq<Move>, w': World)
    requires Reachable(max, w) && LockFree(w) && c.id !in w.links
    ensures OnlyInner(moves) && After(w, [CallRegister(c, capacity)] + moves) == Some(w')
    ensures |w'.threads| == |w.threads| + 1 && w'.threads[..|w.threads|] == w.threads && w'.threads[|w.threads|].pc.Returned?
    ensures w'.reg.conns == if Refuses(w, c) then w.reg.conns else w.reg.conns[c.id := c]
    ensures c.id in w'.links && (w'.links[c.id].stage.Started? <==> !Refuses(w, c)) && !w'.links[c.id].closed
  {
    var call := CallRegister(c, capacity);
    ReachableInv(max, w);
    var s := Apply(w, call).value;
    moves := FromTest(s, |w.threads|, c);
    w' := After(s, moves).value;
    Then(w, call, moves);
    CalledAndLeft(w, c, capacity, w');
  }

  lemma CalledAndLeft(w: World, c: Info, capacity: nat, w': World)
    requires c.id !in w.links && Apply(w, CallRegister(c, capacity)).Some?
    requires var s := Apply(w, CallRegister(c, capacity)).value;
             w' == Leave(if Refuses(s, c) then s else Inserted(s, c), |w.threads|)
    ensures |w'.threads| == |w.threads| + 1 && w'.threads[..|w.threads|] == w.threads && w'.threads[|w.threads|].pc.Returned?
    ensures w'.reg.conns == if Refuses(w, c) then w.reg.conns else w.reg.conns[c.id := c]
    ensures c.id in w'.links && (w'.links[c.id].stage.Started? <==> !Refuses(w, c)) && !w'.links[c.id].closed
  {
  }
}
