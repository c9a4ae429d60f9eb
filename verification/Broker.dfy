/**
 Broker and Connection as the objects they are, one call at a time: the calls update the
 three maps and the connections in place, and Close calls back into the broker. What
 interleaved calls do is the subject of BrokerMachine, which uses the same registry.
 */
module Broker {
  import opened Wrappers
  import opened Registry
  import opened EventStream

  /** The part of a connection that changes. `attached` says that onClose is set. */
  class Link {
    const capacity: nat
    var queue: seq<StreamEvent>
    var closed: bool
    var closeReason: string
    var attached: bool

    constructor (capacity: nat)
      ensures this.capacity == capacity && queue == [] && !closed && !attached
    {
      this.capacity := capacity;
      queue, closed, closeReason, attached := [], false, "", false;
    }

    method Enqueue(evt: StreamEvent) returns (ok: bool)
      modifies this`queue
      ensures ok <==> !closed && |old(queue)| < capacity
      ensures queue == if ok then old(queue) + [evt] else old(queue)
    {
      if closed || |queue| >= capacity {
        return false;
      }
      queue := queue + [evt];
      return true;
    }
  }

  type Connection = Conn<Link>

  datatype RegisterError = NilConnection | Draining | TooManyConnections

  datatype Stats = Stats(connections: nat, subjects: nat, channels: nat, dropped: nat)

  class Broker {
    const maxPerSubject: nat
    var conns: map<string, Connection>
    var bySubject: map<nat, map<string, Connection>>
    var byChannel: map<string, map<string, Connection>>
    var draining: bool
    var dropped: nat

    ghost function Reg(): Registry<Link>
      reads this
    {
      Registry(conns, bySubject, byChannel)
    }

    ghost predicate Valid()
      reads this
    {
      && Agrees(Reg())
      && WithinLimit(Reg(), maxPerSubject)
      && OneIdEach(conns)
    }

    /** Between calls every registered connection is open and will call back when it closes. */
    ghost predicate AllOpen()
      reads this, set id | id in conns :: conns[id].handle
    {
      forall id | id in conns :: !conns[id].handle.closed && conns[id].handle.attached
    }

    constructor (maxPerSubject: nat)
      ensures Valid() && AllOpen() && Reg() == Empty() && !draining && dropped == 0
      ensures this.maxPerSubject == maxPerSubject
    {
      this.maxPerSubject := maxPerSubject;
      conns, bySubject, byChannel, draining, dropped := map[], map[], map[], false, 0;
    }

    method Register(conn: Option<Connection>) returns (err: Option<RegisterError>)
      requires Valid()
      modifies this, (if conn.Some? then {conn.value.handle} else {})`attached
      ensures err == (if conn.None? then Some(NilConnection)
                      else if old(draining) then Some(Draining)
                      else if IsCrowded(old(conns), conn.value, maxPerSubject) then Some(TooManyConnections)
                      else None)
      ensures Reg() == if err.None? then Insert(old(Reg()), conn.value) else old(Reg())
      ensures draining == old(draining) && dropped == old(dropped)
      ensures err.None? ==> conn.value.handle.attached && (Valid() <==> FitsIn(old(Reg()), conn.value))
      ensures err.Some? ==> Valid() && (conn.Some? ==> conn.value.handle.attached == old(conn.value.handle.attached))
    {
      if conn.None? {
        return Some(NilConnection);
      }
      var c := conn.value;
      if draining {
        return Some(Draining);
      }
      TooManyIff(Reg(), c, maxPerSubject);
      var subject := SubjectKey(c);
      if subject.Some? && |Bucket(bySubject, subject.value)| >= maxPerSubject {
        return Some(TooManyConnections);
      }
      Add(c);
      return None;
    }

    method Add(c: Connection)
      requires Valid() && !TooMany(Reg(), c, maxPerSubject)
      modifies this, c.handle`attached
      ensures Reg() == Insert(old(Reg()), c) && draining == old(draining) && dropped == old(dropped)
      ensures c.handle.attached && (Valid() <==> FitsIn(old(Reg()), c))
    {
      FitsInIff(Reg(), c);
      InsertWithinLimit(Reg(), c, maxPerSubject);
      conns := conns[c.id := c];
      bySubject := AddTo(bySubject, SubjectKey(c), c);
      byChannel := AddTo(byChannel, ChannelKey(c), c);
      c.handle.attached := true;
    }

    method UnregisterInternal(id: string, closeConn: bool)
      requires Valid()
      modifies this, (if closeConn && id in conns then {conns[id].handle} else {})`closed,
               (if closeConn && id in conns then {conns[id].handle} else {})`closeReason
      ensures Valid() && Reg() == Remove(old(Reg()), id)
      ensures draining == old(draining) && dropped == old(dropped)
      ensures closeConn && id in old(conns) ==>
                var h := old(conns[id].handle);
                h.closed && h.closeReason == if old(conns[id].handle.closed) then old(conns[id].handle.closeReason) else "unregister"
      decreases if closeConn then 2 else 0
    {
      RemoveAgrees(Reg(), id);
      RemoveWithinLimit(Reg(), id, maxPerSubject);
      if id in conns {
        var c := conns[id];
        conns := conns - {id};
        bySubject := DropFrom(bySubject, SubjectKey(c), id);
        byChannel := DropFrom(byChannel, ChannelKey(c), id);
        if closeConn {
          Close(c, "unregister");
        }
      }
    }

    method Unregister(id: string)
      requires Valid() && AllOpen()
      modifies this, (if id in conns then {conns[id].handle} else {})`closed,
               (if id in conns then {conns[id].handle} else {})`closeReason
      ensures Valid() && AllOpen() && conns == old(conns) - {id}
      ensures draining == old(draining) && dropped == old(dropped)
      ensures id in old(conns) ==>
                old(conns[id].handle).closed && old(conns[id].handle).closeReason == "unregister"
    {
      RemoveAgrees(Reg(), id);
      UnregisterInternal(id, true);
    }

    /** Connection.Close, with the callback that Register installed. */
    method Close(c: Connection, reason: string)
      requires Valid()
      modifies this, c.handle`closed, c.handle`closeReason
      ensures Valid() && c.handle.closed
      ensures c.handle.closeReason == if old(c.handle.closed) then old(c.handle.closeReason) else reason
      ensures Reg() == if old(c.handle.closed) || !old(c.handle.attached) then old(Reg()) else Remove(old(Reg()), c.id)
      ensures draining == old(draining) && dropped == old(dropped)
      decreases 1
    {
      if c.handle.closed {
        return;
      }
      c.handle.closeReason := reason;
      c.handle.closed := true;
      if c.handle.attached {
        UnregisterInternal(c.id, false);
      }
    }

    /** snapshotAll, snapshotBySubject and snapshotByChannel copy a map's values in some order. */
    method Snapshot(from: map<string, Connection>) returns (list: seq<Connection>)
      requires forall id | id in from :: from[id].id == id
      ensures IsSnapshot(list, from)
    {
      list := [];
      var rest := from.Keys;
      while rest != {}
        invariant rest <= from.Keys
        invariant forall i | 0 <= i < |list| :: list[i].id in from && from[list[i].id] == list[i] && list[i].id !in rest
        invariant forall i, j | 0 <= i < j < |list| :: list[i].id != list[j].id
        invariant forall id | id in from && id !in rest :: from[id] in list
        invariant |list| + |rest| == |from|
        decreases rest
      {
        var id :| id in rest;
        list := list + [from[id]];
        rest := rest - {id};
        assert list[|list| - 1] == from[id];
      }
    }

    method CloseRegistered(c: Connection, reason: string)
      requires Valid() && AllOpen() && c.id in conns && conns[c.id] == c
      modifies this, c.handle`closed, c.handle`closeReason
      ensures Valid() && AllOpen() && conns == old(conns) - {c.id}
      ensures c.handle.closed && c.handle.closeReason == reason
      ensures draining == old(draining) && dropped == old(dropped)
    {
      RemoveAgrees(Reg(), c.id);
      Close(c, reason);
    }

    /** Closes the listed connections one by one; each call back removes its own. */
    method CloseAll(list: seq<Connection>, reason: string)
      requires Valid() && AllOpen() && Registered(list)
      modifies this, (set c | c in list :: c.handle)`closed, (set c | c in list :: c.handle)`closeReason
      ensures Valid() && AllOpen()
      ensures conns == Without(old(conns), list)
      ensures forall c | c in list :: c.handle.closed && c.handle.closeReason == reason
      ensures draining == old(draining) && dropped == old(dropped)
    {
      WithoutNone(conns);
      for i := 0 to |list|
        invariant Valid() && AllOpen() && conns == Without(old(conns), list[..i])
        invariant forall j | 0 <= j < i :: list[j].handle.closed && list[j].handle.closeReason == reason
        invariant draining == old(draining) && dropped == old(dropped)
      {
        WithoutNext(old(conns), list, i);
        CloseRegistered(list[i], reason);
      }
      assert list[..|list|] == list;
    }

    method BeginDrain()
      requires Valid() && AllOpen()
      modifies this, set id | id in conns :: conns[id].handle
      ensures Valid() && AllOpen() && draining && dropped == old(dropped)
      ensures old(draining) ==> Reg() == old(Reg())
      ensures !old(draining) ==> Reg() == Empty()
      ensures !old(draining) ==> forall id | id in old(conns) ::
                var h := old(conns[id].handle); h.closed && h.closeReason == "drain"
    {
      if draining {
        return;
      }
      draining := true;
      CloseEvery("drain");
      ConnsDetermineIndexes(Reg(), Empty());
    }

    method CloseEvery(reason: string)
      requires Valid() && AllOpen()
      modifies this, set id | id in conns :: conns[id].handle
      ensures Valid() && AllOpen() && conns == map[]
      ensures draining == old(draining) && dropped == old(dropped)
      ensures forall id | id in old(conns) ::
                var h := old(conns[id].handle); h.closed && h.closeReason == reason
    {
      var list := Snapshot(conns);
      SnapshotHandles(list, conns);
      CloseAll(list, reason);
      WithoutSnapshot(list, old(conns));
    }

    method RevokeSubject(subject: nat, reason: string) returns (n: nat)
      requires Valid() && AllOpen()
      modifies this, set id | id in conns :: conns[id].handle
      ensures Valid() && AllOpen()
      ensures n == |OfSubject(old(conns), subject)|
      ensures forall id :: id in conns <==> (id in old(conns) && !OnSubject(old(conns)[id], subject))
      ensures forall id | id in conns :: conns[id] == old(conns)[id]
      ensures forall id | id in old(conns) && OnSubject(old(conns)[id], subject) ::
                var h := old(conns[id].handle); h.closed && h.closeReason == reason
    {
      SubjectBucket(Reg(), subject);
      var list := Snapshot(Bucket(bySubject, subject));
      SnapshotHandles(list, conns);
      CloseAll(list, reason);
      return |list|;
    }

    /** One turn of publish's first loop: what was offered before stays, and the rest is as it was. */
    method OfferNext(c: Connection, evt: StreamEvent, ghost list: seq<Connection>, ghost i: nat,
                     ghost took: seq<bool>, ghost before: seq<seq<StreamEvent>>)
      returns (ok: bool)
      requires i < |list| == |before| && |took| == i && list[i] == c && OfferedTo(list, before, evt, took)
      requires forall j, k | 0 <= j < k < |list| :: Apart(list[j], list[k])
      modifies c.handle`queue
      ensures OfferedTo(list, before, evt, took + [ok])
    {
      ApartFromOthers(list, i);
      ok := c.handle.Enqueue(evt);
    }

    /** The first loop of publish: `took` says which connections accepted the event, and `slow` lists the others. */
    method OfferAll(list: seq<Connection>, evt: StreamEvent)
      returns (delivered: nat, slow: seq<Connection>, ghost took: seq<bool>, ghost before: seq<seq<StreamEvent>>)
      requires forall i, j | 0 <= i < j < |list| :: Apart(list[i], list[j])
      modifies (set c | c in list :: c.handle)`queue
      ensures |took| == |list| && delivered + |slow| == |list| && slow == Refusing(list, took)
      ensures before == old(Queues(list)) && OfferedTo(list, before, evt, took) && took == old(Accepting(list))
    {
      before := Queues(list);
      ghost var accepting := Accepting(list);
      delivered, slow, took := OfferEach(list, evt, before);
      TookIsAccepting(list, before, evt, took, accepting);
    }

    method OfferEach(list: seq<Connection>, evt: StreamEvent, ghost before: seq<seq<StreamEvent>>)
      returns (delivered: nat, slow: seq<Connection>, ghost took: seq<bool>)
      requires forall i, j | 0 <= i < j < |list| :: Apart(list[i], list[j])
      requires |before| == |list| && OfferedTo(list, before, evt, [])
      modifies (set c | c in list :: c.handle)`queue
      ensures |took| == |list| && delivered + |slow| == |list| && slow == Refusing(list, took)
      ensures OfferedTo(list, before, evt, took)
    {
      delivered, slow, took := 0, [], [];
      for i := 0 to |list|
        invariant |took| == i && delivered + |slow| == i && slow == Refusing(list[..i], took)
        invariant OfferedTo(list, before, evt, took)
      {
        var ok := OfferNext(list[i], evt, list, i, took, before);
        if ok {
          delivered := delivered + 1;
        } else {
          slow := slow + [list[i]];
        }
        RefusingNext(list, i, took, ok);
        took := took + [ok];
      }
      assert list[..|list|] == list;
    }

    method KickNext(slow: seq<Connection>, i: nat, ghost start: map<string, Connection>)
      requires Valid() && AllOpen() && i < |slow| && OneIdEach(start) && conns == WithoutIds(start, slow[..i])
      requires AllKicked(start, conns)
      modifies this, (if slow[i].id in conns then {conns[slow[i].id].handle} else {})`closed,
               (if slow[i].id in conns then {conns[slow[i].id].handle} else {})`closeReason
      ensures Valid() && AllOpen() && conns == WithoutIds(start, slow[..i + 1]) && AllKicked(start, conns)
      ensures draining == old(draining) && dropped == old(dropped) + 1
    {
      WithoutNextId(start, slow, i);
      KickOne(slow[i].id);
    }

    method KickOne(id: string)
      requires Valid() && AllOpen()
      modifies this, (if id in conns then {conns[id].handle} else {})`closed,
               (if id in conns then {conns[id].handle} else {})`closeReason
      ensures Valid() && AllOpen() && conns == old(conns) - {id}
      ensures id in old(conns) ==> old(conns[id].handle).closed && old(conns[id].handle).closeReason == "unregister"
      ensures draining == old(draining) && dropped == old(dropped) + 1
    {
      dropped := dropped + 1;
      Unregister(id);
    }

    /**
     The second loop of publish: each slow consumer is counted, and whatever is registered
     under its id by now is unregistered.
     */
    method Kick(slow: seq<Connection>)
      requires Valid() && AllOpen()
      modifies this, (set id | id in conns && Named(slow, id) :: conns[id].handle)`closed,
               (set id | id in conns && Named(slow, id) :: conns[id].handle)`closeReason
      ensures Valid() && AllOpen() && conns == WithoutIds(old(conns), slow)
      ensures forall id | id in old(conns) && Named(slow, id) ::
                old(conns[id].handle).closed && old(conns[id].handle).closeReason == "unregister"
      ensures draining == old(draining) && dropped == old(dropped) + |slow|
    {
      KickEach(slow, set id | id in conns && Named(slow, id) :: conns[id].handle);
    }

    method KickEach(slow: seq<Connection>, ghost links: set<Link>)
      requires Valid() && AllOpen() && forall id | id in conns && Named(slow, id) :: conns[id].handle in links
      modifies this, links`closed, links`closeReason
      ensures Valid() && AllOpen() && conns == WithoutIds(old(conns), slow)
      ensures forall id | id in old(conns) && Named(slow, id) ::
                old(conns[id].handle).closed && old(conns[id].handle).closeReason == "unregister"
      ensures draining == old(draining) && dropped == old(dropped) + |slow|
    {
      ghost var start := conns;
      WithoutNoIds(conns);
      for i := 0 to |slow|
        invariant Valid() && AllOpen() && conns == WithoutIds(start, slow[..i])
        invariant AllKicked(start, conns) && draining == old(draining) && dropped == old(dropped) + i
      {
        KickNext(slow, i, start);
      }
      assert slow[..|slow|] == slow;
    }

    /**
     publish for a non-nil event: offers it to every listed connection, registered or not, then
     unregisters what is registered under the ids of those that refused it. Delivered and
     newly dropped connections add up to the snapshot.
     */
    method Deliver(list: seq<Connection>, evt: StreamEvent) returns (delivered: nat)
      requires Valid() && AllOpen()
      requires forall i, j | 0 <= i < j < |list| :: Apart(list[i], list[j])
      modifies this, (set c | c in list :: c.handle)`queue,
               (set id | id in conns :: conns[id].handle)`closed, (set id | id in conns :: conns[id].handle)`closeReason
      ensures Valid() && AllOpen() && draining == old(draining)
      ensures delivered + (dropped - old(dropped)) == |list|
      ensures conns == old(conns) - old(Refusers(list))
      ensures forall c | c in list :: c.handle.queue == old(c.handle.queue) + (if old(Accepts(c)) then [evt] else [])
    {
      var slow: seq<Connection>;
      ghost var took: seq<bool>;
      ghost var before: seq<seq<StreamEvent>>;
      ghost var refusers := Refusers(list);
      RefusersAreNamed(list);
      delivered, slow, took, before := OfferAll(list, evt);
      WithoutRefusers(conns, slow, refusers);
      Kick(slow);
    }

    method Publish(list: seq<Connection>, evt: Option<StreamEvent>) returns (delivered: nat)
      requires Valid() && AllOpen()
      requires forall i, j | 0 <= i < j < |list| :: Apart(list[i], list[j])
      modifies this, (set c | c in list :: c.handle)`queue,
               (set id | id in conns :: conns[id].handle)`closed, (set id | id in conns :: conns[id].handle)`closeReason
      ensures Valid() && AllOpen() && draining == old(draining)
      ensures delivered + (dropped - old(dropped)) == if evt.Some? then |list| else 0
      ensures conns == old(conns) - (if evt.Some? then old(Refusers(list)) else {})
      ensures forall c | c in list ::
                c.handle.queue == old(c.handle.queue) + (if evt.Some? && old(Accepts(c)) then [evt.value] else [])
    {
      if evt.None? || |list| == 0 {
        return 0;
      }
      delivered := Deliver(list, evt.value);
    }

    /** PublishToSubject and PublishToChannel: a snapshot of the bucket, and publish. */
    method PublishToBucket(bucket: map<string, Connection>, evt: Option<StreamEvent>) returns (delivered: nat)
      requires Valid() && AllOpen() && forall id | id in bucket :: id in conns && bucket[id] == conns[id]
      modifies this, set id | id in conns :: conns[id].handle
      ensures Valid() && AllOpen() && draining == old(draining)
      ensures delivered + (dropped - old(dropped)) == if evt.Some? then |bucket| else 0
      ensures forall id :: id in conns <==> id in old(conns) && !(evt.Some? && id in bucket && old(IsFull(conns[id])))
      ensures forall id | id in conns :: conns[id] == old(conns)[id] && conns[id].handle.queue ==
                old(conns[id].handle.queue) + (if evt.Some? && id in bucket then [evt.value] else [])
    {
      var list := Snapshot(bucket);
      SnapshotIsListed(list, bucket, conns);
      SnapshotRefusers(list, bucket);
      delivered := PublishListed(list, evt);
    }

    method PublishListed(list: seq<Connection>, evt: Option<StreamEvent>) returns (delivered: nat)
      requires Valid() && AllOpen() && Registered(list)
      modifies this, set id | id in conns :: conns[id].handle
      ensures Valid() && AllOpen() && draining == old(draining)
      ensures delivered + (dropped - old(dropped)) == if evt.Some? then |list| else 0
      ensures conns == old(conns) - (if evt.Some? then old(Refusers(list)) else {})
      ensures forall id | id in conns :: conns[id].handle.queue ==
                old(conns[id].handle.queue) + (if evt.Some? && conns[id] in list then [evt.value] else [])
    {
      SnapshotHandles(list, conns);
      ListedAreApart(list, conns);
      delivered := Publish(list, evt);
    }

    method PublishToSubject(subject: nat, evt: Option<StreamEvent>) returns (delivered: nat)
      requires Valid() && AllOpen()
      modifies this, set id | id in conns :: conns[id].handle
      ensures Valid() && AllOpen() && draining == old(draining)
      ensures delivered + (dropped - old(dropped)) == if evt.Some? then |OfSubject(old(conns), subject)| else 0
      ensures forall id :: id in conns <==>
                id in old(conns) && !(evt.Some? && OnSubject(old(conns)[id], subject) && old(IsFull(conns[id])))
      ensures forall id | id in conns :: conns[id] == old(conns)[id] && conns[id].handle.queue ==
                old(conns[id].handle.queue) + (if evt.Some? && OnSubject(conns[id], subject) then [evt.value] else [])
    {
      var bucket := Bucket(bySubject, subject);
      SubjectBucket(Reg(), subject);
      delivered := PublishToBucket(bucket, evt);
    }

    method PublishToChannel(channel: string, evt: Option<StreamEvent>) returns (delivered: nat)
      requires Valid() && AllOpen()
      modifies this, set id | id in conns :: conns[id].handle
      ensures Valid() && AllOpen() && draining == old(draining)
      ensures delivered + (dropped - old(dropped)) == if evt.Some? then |OfChannel(old(conns), channel)| else 0
      ensures forall id :: id in conns <==>
                id in old(conns) && !(evt.Some? && OnChannel(old(conns)[id], channel) && old(IsFull(conns[id])))
      ensures forall id | id in conns :: conns[id] == old(conns)[id] && conns[id].handle.queue ==
                old(conns[id].handle.queue) + (if evt.Some? && OnChannel(conns[id], channel) then [evt.value] else [])
    {
      var bucket := Bucket(byChannel, channel);
      ChannelBucket(Reg(), channel);
      delivered := PublishToBucket(bucket, evt);
    }

    /** The listed connections are registered, each listed once. */
    ghost predicate Registered(list: seq<Connection>)
      reads this
    {
      && (forall i | 0 <= i < |list| :: list[i].id in conns && conns[list[i].id] == list[i])
      && (forall i, j | 0 <= i < j < |list| :: list[i].id != list[j].id)
    }

    /** A connection is registered under an id that another one has. */
    method TakeOver(second: Connection)
      requires Valid() && AllOpen() && !draining && second.id in conns && !second.handle.closed
      requires FitsIn(Reg(), second) && !IsCrowded(conns, second, maxPerSubject)
      modifies this, second.handle`attached
      ensures Valid() && AllOpen() && !draining && conns == old(conns)[second.id := second]
    {
      var err := Register(Some(second));
    }

    /**
     A connection whose id another one has taken over calls back with that id when it closes,
     so it is the newer connection that goes from the registry, and that one stays open.
     */
    method CloseReplaced(first: Connection, second: Connection, reason: string)
      requires Valid() && AllOpen() && !draining
      requires first.id in conns && conns[first.id] == first
      requires second.id == first.id && FitsIn(Reg(), second) && !IsCrowded(conns, second, maxPerSubject)
      requires second.handle != first.handle && !second.handle.closed
      modifies this, second.handle`attached, first.handle`closed, first.handle`closeReason
      ensures Valid() && AllOpen() && !draining && conns == old(conns) - {first.id}
      ensures first.handle.closed && first.handle.closeReason == reason
      ensures !second.handle.closed && second.handle.attached && Unlisted(second)
    {
      TakeOver(second);
      RemoveAgrees(Reg(), first.id);
      Close(first, reason);
    }

    /** What it then misses: an event published to its subject, one to its channel, and the drain. */
    method PublishAndDrain(c: Connection, evt: StreamEvent, other: StreamEvent)
      requires Valid() && AllOpen() && !draining && Unlisted(c) && !c.handle.closed
      modifies this, set id | id in conns :: conns[id].handle
      ensures Valid() && AllOpen() && draining && Reg() == Empty()
      ensures !c.handle.closed && c.handle.queue == old(c.handle.queue)
    {
      if c.principal.Some? {
        PublishPast(c, c.principal.value, evt);
      }
      PublishAlongside(c, c.channel, other);
      BeginDrain();
    }

    method PublishPast(c: Connection, subject: nat, evt: StreamEvent)
      requires Valid() && AllOpen() && Unlisted(c)
      modifies this, set id | id in conns :: conns[id].handle
      ensures Valid() && AllOpen() && Unlisted(c) && draining == old(draining)
      ensures forall id | id in conns :: id in old(conns) && conns[id] == old(conns)[id]
      ensures c.handle.closed == old(c.handle.closed) && c.handle.queue == old(c.handle.queue)
    {
      var _ := PublishToSubject(subject, Some(evt));
    }

    method PublishAlongside(c: Connection, channel: string, evt: StreamEvent)
      requires Valid() && AllOpen() && Unlisted(c)
      modifies this, set id | id in conns :: conns[id].handle
      ensures Valid() && AllOpen() && Unlisted(c) && draining == old(draining)
      ensures forall id | id in conns :: id in old(conns) && conns[id] == old(conns)[id]
      ensures c.handle.closed == old(c.handle.closed) && c.handle.queue == old(c.handle.queue)
    {
      var _ := PublishToChannel(channel, Some(evt));
    }

    ghost predicate Unlisted(c: Connection)
      reads this
    {
      forall id | id in conns :: conns[id].handle != c.handle
    }

    method ReadStats() returns (s: Stats)
      requires Valid()
      ensures s.connections == |conns| && s.dropped == dropped
      ensures s.subjects == |Subjects(conns)| && s.channels == |Channels(conns)|
    {
      StatsAreExact(Reg());
      s := Stats(|conns|, |bySubject|, |byChannel|, dropped);
      assert |bySubject| == |bySubject.Keys| && |byChannel| == |byChannel.Keys|;
    }
  }

  /** What Register needs for a sound registry: see InsertAgreesIff, and no object under two ids. */
  ghost predicate FitsIn(r: Registry<Link>, c: Connection) {
    && (c.id in r.conns ==>
          && (forall subject | OnSubject(r.conns[c.id], subject) :: OnSubject(c, subject))
          && (forall channel | OnChannel(r.conns[c.id], channel) :: OnChannel(c, channel)))
    && (forall id | id in r.conns && id != c.id :: r.conns[id].handle != c.handle)
  }

  lemma FitsInIff(r: Registry<Link>, c: Connection)
    requires Agrees(r) && OneIdEach(r.conns)
    ensures FitsIn(r, c) <==> Agrees(Insert(r, c)) && OneIdEach(Insert(r, c).conns)
  {
    InsertAgreesIff(r, c);
    if id :| id in r.conns && id != c.id && r.conns[id].handle == c.handle {
      assert Insert(r, c).conns[id].handle == Insert(r, c).conns[c.id].handle;
    }
  }

  ghost predicate OneIdEach(conns: map<string, Connection>) {
    forall i, j | i in conns && j in conns && i != j :: conns[i].handle != conns[j].handle
  }

  ghost predicate Accepts(c: Connection)
    reads c.handle
  {
    !c.handle.closed && |c.handle.queue| < c.handle.capacity
  }

  /** An event was offered to a connection whose queue was `before`. */
  ghost predicate Offered(link: Link, before: seq<StreamEvent>, evt: StreamEvent, took: bool)
    reads link
  {
    && took == (!link.closed && |before| < link.capacity)
    && link.queue == if took then before + [evt] else before
  }

  /** What has gone from the registry since `start` has been closed by Unregister. */
  ghost predicate AllKicked(start: map<string, Connection>, conns: map<string, Connection>)
    reads set id | id in start :: start[id].handle
  {
    forall id | id in start && id !in conns :: start[id].handle.closed && start[id].handle.closeReason == "unregister"
  }

  /** The event was offered to the first of the list, as `took` says, and not yet to the rest. */
  ghost predicate OfferedTo(list: seq<Connection>, before: seq<seq<StreamEvent>>, evt: StreamEvent, took: seq<bool>)
    requires |took| <= |list| == |before|
    reads set c | c in list :: c.handle
  {
    && (forall j | 0 <= j < |took| :: Offered(list[j].handle, before[j], evt, took[j]))
    && (forall j | |took| <= j < |list| :: list[j].handle.queue == before[j])
  }

  ghost function FullOf(bucket: map<string, Connection>): set<string>
    reads set id | id in bucket :: bucket[id].handle
  {
    set id | id in bucket && IsFull(bucket[id])
  }

  lemma SnapshotRefusers(list: seq<Connection>, bucket: map<string, Connection>)
    requires IsSnapshot(list, bucket) && forall id | id in bucket :: bucket[id].id == id && !bucket[id].handle.closed
    ensures Refusers(list) == FullOf(bucket)
  {
    forall c
      ensures c in list <==> c.id in bucket && bucket[c.id] == c
    {
    }
  }

  /** The ids of the connections that would not take an event. */
  ghost function Refusers(list: seq<Connection>): set<string>
    reads set c | c in list :: c.handle
  {
    set c | c in list && !Accepts(c) :: c.id
  }

  ghost predicate IsFull(c: Connection)
    reads c.handle
  {
    |c.handle.queue| >= c.handle.capacity
  }

  predicate Apart(c: Connection, d: Connection) {
    c.handle != d.handle && c.id != d.id
  }

  ghost function Queues(list: seq<Connection>): (queues: seq<seq<StreamEvent>>)
    reads set c | c in list :: c.handle
    ensures |queues| == |list| && forall i | 0 <= i < |list| :: queues[i] == list[i].handle.queue
  {
    if list == [] then [] else Queues(list[..|list| - 1]) + [list[|list| - 1].handle.queue]
  }

  /** Which of the listed connections would take an event. */
  ghost function Accepting(list: seq<Connection>): (accepting: seq<bool>)
    reads set c | c in list :: c.handle
    ensures |accepting| == |list| && forall i | 0 <= i < |list| :: accepting[i] == Accepts(list[i])
  {
    if list == [] then [] else Accepting(list[..|list| - 1]) + [Accepts(list[|list| - 1])]
  }

  lemma ApartFromOthers(list: seq<Connection>, i: nat)
    requires i < |list| && forall j, k | 0 <= j < k < |list| :: Apart(list[j], list[k])
    ensures forall j | 0 <= j < |list| && j != i :: list[j].handle != list[i].handle
  {
    forall j | 0 <= j < |list| && j != i
      ensures list[j].handle != list[i].handle
    {
      assert if j < i then Apart(list[j], list[i]) else Apart(list[i], list[j]);
    }
  }

  predicate IsSnapshot(list: seq<Connection>, from: map<string, Connection>) {
    && |list| == |from|
    && (forall i | 0 <= i < |list| :: list[i].id in from && from[list[i].id] == list[i])
    && (forall i, j | 0 <= i < j < |list| :: list[i].id != list[j].id)
    && (forall id | id in from :: from[id] in list)
  }

  /** The connections of a list that did not take an event, in the order of the list. */
  function Refusing(list: seq<Connection>, took: seq<bool>): seq<Connection>
    requires |list| == |took|
  {
    if list == [] then []
    else
      var n := |list| - 1;
      Refusing(list[..n], took[..n]) + (if took[n] then [] else [list[n]])
  }

  lemma RefusingNext(list: seq<Connection>, i: nat, took: seq<bool>, ok: bool)
    requires i < |list| && |took| == i
    ensures Refusing(list[..i + 1], took + [ok]) == Refusing(list[..i], took) + (if ok then [] else [list[i]])
  {
    assert list[..i + 1][..i] == list[..i] && (took + [ok])[..i] == took;
  }

  predicate Refuses(list: seq<Connection>, took: seq<bool>, i: nat, id: string)
    requires i < |list| == |took|
  {
    list[i].id == id && !took[i]
  }

  predicate IsRefusing(list: seq<Connection>, took: seq<bool>, id: string)
    requires |list| == |took|
  {
    exists i :: 0 <= i < |list| && Refuses(list, took, i, id)
  }

  lemma IsRefusingIff(list: seq<Connection>, took: seq<bool>, id: string)
    requires |list| == |took| > 0
    ensures var n := |list| - 1;
            IsRefusing(list, took, id) <==> IsRefusing(list[..n], took[..n], id) || Refuses(list, took, n, id)
  {
    var n := |list| - 1;
    if i :| 0 <= i < n && Refuses(list, took, i, id) {
      assert Refuses(list[..n], took[..n], i, id);
    }
    if i :| 0 <= i < n && Refuses(list[..n], took[..n], i, id) {
      assert Refuses(list, took, i, id);
    }
  }

  lemma NamedAlone(c: Connection, id: string)
    ensures Named([c], id) <==> c.id == id
  {
    assert [c][0] == c;
  }

  lemma {:induction false} RefusingIds(list: seq<Connection>, took: seq<bool>, id: string)
    requires |list| == |took|
    ensures Named(Refusing(list, took), id) <==> IsRefusing(list, took, id)
  {
    if list != [] {
      var n := |list| - 1;
      RefusingIds(list[..n], took[..n], id);
      IsRefusingIff(list, took, id);
      NamedAlone(list[n], id);
      NamedByEither(Refusing(list[..n], took[..n]), if took[n] then [] else [list[n]], id);
    }
  }

  lemma RefusersAreNamed(list: seq<Connection>)
    ensures forall id :: id in Refusers(list) <==> Named(Refusing(list, Accepting(list)), id)
  {
    forall id
      ensures id in Refusers(list) <==> Named(Refusing(list, Accepting(list)), id)
    {
      RefusingIds(list, Accepting(list), id);
      RefuserIsRefusing(list, Accepting(list), id);
    }
  }

  lemma RefuserIsRefusing(list: seq<Connection>, accepting: seq<bool>, id: string)
    requires accepting == Accepting(list)
    ensures id in Refusers(list) <==> IsRefusing(list, accepting, id)
  {
    if c :| c in list && !Accepts(c) && c.id == id {
      var i :| 0 <= i < |list| && list[i] == c;
      assert Refuses(list, accepting, i, id);
    }
  }

  lemma TookIsAccepting(list: seq<Connection>, before: seq<seq<StreamEvent>>, evt: StreamEvent, took: seq<bool>, accepting: seq<bool>)
    requires |list| == |before| == |took| == |accepting| && OfferedTo(list, before, evt, took)
    requires forall i | 0 <= i < |list| :: accepting[i] == (!list[i].handle.closed && |before[i]| < list[i].handle.capacity)
    ensures took == accepting
  {
  }

  lemma WithoutRefusers(conns: map<string, Connection>, slow: seq<Connection>, refusers: set<string>)
    requires forall id :: id in refusers <==> Named(slow, id)
    ensures WithoutIds(conns, slow) == conns - refusers
  {
  }

  predicate Named(list: seq<Connection>, id: string) {
    exists i :: 0 <= i < |list| && list[i].id == id
  }

  lemma NamedByEither(first: seq<Connection>, second: seq<Connection>, id: string)
    ensures Named(first + second, id) <==> Named(first, id) || Named(second, id)
  {
    var both := first + second;
    if i :| 0 <= i < |first| && first[i].id == id {
      assert both[i].id == id;
    }
    if i :| 0 <= i < |second| && second[i].id == id {
      assert both[|first| + i].id == id;
    }
  }

  function WithoutIds(conns: map<string, Connection>, list: seq<Connection>): map<string, Connection> {
    map id | id in conns && !Named(list, id) :: conns[id]
  }

  lemma WithoutNoIds(conns: map<string, Connection>)
    ensures WithoutIds(conns, []) == conns
  {
  }

  lemma WithoutNextId(conns: map<string, Connection>, list: seq<Connection>, i: nat)
    requires i < |list|
    ensures WithoutIds(conns, list[..i + 1]) == WithoutIds(conns, list[..i]) - {list[i].id}
    ensures Named(list, list[i].id)
  {
    assert list[..i + 1] == list[..i] + [list[i]];
    forall id
      ensures Named(list[..i + 1], id) <==> Named(list[..i], id) || id == list[i].id
    {
      NamedByEither(list[..i], [list[i]], id);
    }
  }

  function Without(conns: map<string, Connection>, list: seq<Connection>): map<string, Connection> {
    map id | id in conns && conns[id] !in list :: conns[id]
  }

  /** The next listed connection is still registered, and it is the one that goes. */
  lemma WithoutNext(conns: map<string, Connection>, list: seq<Connection>, i: nat)
    requires i < |list|
    requires forall j | 0 <= j < |list| :: list[j].id in conns && conns[list[j].id] == list[j]
    requires forall j, k | 0 <= j < k < |list| :: list[j].id != list[k].id
    requires forall id | id in conns :: conns[id].id == id
    requires forall j, k | j in conns && k in conns && j != k :: conns[j].handle != conns[k].handle
    ensures Without(conns, list[..i + 1]) == Without(conns, list[..i]) - {list[i].id}
    ensures list[i].id in Without(conns, list[..i]) && Without(conns, list[..i])[list[i].id] == list[i]
    ensures forall j | 0 <= j < i :: list[j].handle != list[i].handle
  {
    assert list[..i + 1] == list[..i] + [list[i]];
    assert list[i] !in list[..i];
  }

  lemma WithoutSnapshot(list: seq<Connection>, conns: map<string, Connection>)
    requires IsSnapshot(list, conns)
    ensures Without(conns, list) == map[]
  {
  }

  lemma WithoutNone(conns: map<string, Connection>)
    ensures Without(conns, []) == conns
  {
  }

  lemma SnapshotHandles(list: seq<Connection>, conns: map<string, Connection>)
    requires forall i | 0 <= i < |list| :: list[i].id in conns && conns[list[i].id] == list[i]
    ensures (set c | c in list :: c.handle) <= (set id | id in conns :: conns[id].handle)
  {
    forall c | c in list
      ensures exists id :: id in conns && conns[id].handle == c.handle
    {
      assert c.id in conns;
    }
  }

  lemma SnapshotIsListed(list: seq<Connection>, from: map<string, Connection>, conns: map<string, Connection>)
    requires IsSnapshot(list, from) && forall id | id in conns :: conns[id].id == id
    requires forall id | id in from :: id in conns && from[id] == conns[id]
    ensures forall i | 0 <= i < |list| :: list[i].id in conns && conns[list[i].id] == list[i]
    ensures forall id | id in conns :: conns[id] in list <==> id in from
  {
  }

  lemma ListedAreApart(list: seq<Connection>, conns: map<string, Connection>)
    requires OneIdEach(conns) && forall i | 0 <= i < |list| :: list[i].id in conns && conns[list[i].id] == list[i]
    requires forall i, j | 0 <= i < j < |list| :: list[i].id != list[j].id
    ensures forall i, j | 0 <= i < j < |list| :: Apart(list[i], list[j])
    ensures forall id, c | id in conns && c in list && conns[id] != c :: c.handle != conns[id].handle
  {
    forall i, j | 0 <= i < j < |list|
      ensures Apart(list[i], list[j])
    {
      assert list[i].id in conns && list[j].id in conns;
    }
    forall id, c | id in conns && c in list && conns[id] != c
      ensures c.handle != conns[id].handle
    {
      assert c.id in conns;
    }
  }
}
