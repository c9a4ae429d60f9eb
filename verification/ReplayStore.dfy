/** The Redis-backed replay store, and the handler that replays before it registers a connection. */
module ReplayStore {
  import opened Wrappers
  import opened Text
  import opened Replay

  class StreamEvent {
    var eventId: string
    const body: Body
    const durable: bool

    constructor (eventId: string, body: Body, durable: bool)
      ensures this.eventId == eventId && this.body == body && this.durable == durable
    {
      this.eventId, this.body, this.durable := eventId, body, durable;
    }
  }

  datatype ReplayError = BadId | Unreachable

  const DEFAULT_LIMIT: nat := 100

  /** The page a caller gets, for any text it gives as the last id. */
  function Answer(s: Stream, lastEventId: string, limit: int): Result<seq<Event>, ReplayError> {
    var n: nat := if limit <= 0 then DEFAULT_LIMIT else limit;
    var text := TrimSpace(lastEventId);
    if text == "" then Ok(Good(Take(s, n)))
    else if ReadId(text).None? then Err(BadId)
    else Ok(Page(s, ReadId(text).value, n))
  }

  class RedisReplayStore {
    const prefix: string
    var streams: map<string, Stream>

    constructor (streamPrefix: string)
      ensures streams == map[] && prefix == TrimSpace(streamPrefix) && AllDecode()
    {
      prefix, streams := TrimSpace(streamPrefix), map[];
    }

    function StreamKey(channel: string): string {
      (if prefix == "" then "sse:replay" else prefix) + ":" + TrimSpace(channel)
    }

    /** Channels share a stream exactly when they differ in white space around them only. */
    lemma StreamsAreDistinct(channel: string, other: string)
      ensures StreamKey(channel) == StreamKey(other) <==> TrimSpace(channel) == TrimSpace(other)
    {
      var n := |StreamKey("")|;
      assert TrimSpace("") == "";
      assert StreamKey(channel)[n..] == TrimSpace(channel) && StreamKey(other)[n..] == TrimSpace(other);
    }

    /** The stream's name in Redis. */
    lemma StreamName(channel: string)
      requires Trimmed(channel)
      ensures prefix == "" ==> StreamKey(channel) == "sse:replay:" + channel
      ensures prefix != "" ==> StreamKey(channel) == prefix + ":" + channel
    {
    }

    function StreamOf(channel: string): Stream
      reads this
    {
      if StreamKey(channel) in streams then streams[StreamKey(channel)] else []
    }

    /** Every stored entry can be decoded: Append, the only writer, keeps it so. */
    ghost predicate AllDecode()
      reads this
    {
      forall key | key in streams :: Decodes(streams[key])
    }

    /** `id` is what XADD generates, and `accepted` says whether it succeeds. */
    method Append(evt: StreamEvent, id: Id, accepted: bool) returns (ok: bool)
      modifies this, evt
      ensures ok <==> !evt.durable || accepted
      ensures !evt.durable || !accepted ==> streams == old(streams) && evt.eventId == old(evt.eventId)
      ensures evt.durable && accepted ==>
                streams == old(streams)[StreamKey(evt.body.channel) := old(StreamOf(evt.body.channel)) + [Entry(id, Some(evt.body))]]
      ensures evt.durable && accepted ==>
                (evt.eventId == IdText(id) <==> old(evt.eventId) == "" || old(evt.eventId) == IdText(id))
      ensures old(evt.eventId) != "" ==> evt.eventId == old(evt.eventId)
      ensures old(AllDecode()) ==> AllDecode()
      ensures evt.durable && accepted ==>
                forall channel ::
                  StreamOf(channel) == old(StreamOf(channel)) +
                    (if TrimSpace(channel) == TrimSpace(evt.body.channel) then [Entry(id, Some(evt.body))] else [])
    {
      if !evt.durable {
        return true;
      }
      if !accepted {
        return false;
      }
      var key := StreamKey(evt.body.channel);
      forall channel
        ensures StreamKey(channel) == key <==> TrimSpace(channel) == TrimSpace(evt.body.channel)
      {
        StreamsAreDistinct(channel, evt.body.channel);
      }
      streams := streams[key := StreamOf(evt.body.channel) + [Entry(id, Some(evt.body))]];
      if evt.eventId == "" {
        evt.eventId := IdText(id);
      }
      return true;
    }

    method ReplayAfter(channel: string, lastEventId: string, limit: int, reachable: bool)
      returns (r: Result<seq<Event>, ReplayError>)
      ensures channel == "" ==> r == Ok([])
      ensures channel != "" && !reachable ==> r == Err(Unreachable)
      ensures channel != "" && reachable ==> r == Answer(StreamOf(channel), lastEventId, if limit <= 0 then 100 else limit)
    {
      if channel == "" {
        return Ok([]);
      }
      var n: nat := if limit <= 0 then DEFAULT_LIMIT else limit;
      if !reachable {
        return Err(Unreachable);
      }
      var from := StreamOf(channel);
      var text := TrimSpace(lastEventId);
      if text != "" {
        var id := ReadId(text);
        if id.None? {
          return Err(BadId);
        }
        from := Rest(from, id.value);
      }
      var events := Decoded(Take(from, n));
      return Ok(events);
    }

    /** Entries that cannot be decoded are skipped. */
    method Decoded(items: Stream) returns (result: seq<Event>)
      ensures result == Good(items)
    {
      result := [];
      for i := 0 to |items|
        invariant result == Good(items[..i])
      {
        assert items[..i + 1][..i] == items[..i];
        if items[i].body.None? {
          continue;
        }
        result := result + [Event(IdText(items[i].id), items[i].body.value)];
      }
      assert items[..|items|] == items;
    }
  }

  // ----- serving a connection -----

  datatype ServeError = ConnectDenied | SubscribeDenied | ReplayFailed | WriteFailed | NotRegistered

  /** The events the principal may see, as the filter returns them. */
  function Visible(events: seq<Event>, filter: Event -> Option<Event>): seq<Event> {
    if events == [] then []
    else Visible(events[..|events| - 1], filter) +
         if filter(events[|events| - 1]).Some? then [filter(events[|events| - 1]).value] else []
  }

  lemma {:induction false} VisiblePrefix(events: seq<Event>, filter: Event -> Option<Event>, n: nat)
    requires n <= |events|
    ensures Visible(events[..n], filter) <= Visible(events, filter)
  {
    if n == |events| {
      assert events[..n] == events;
    } else {
      assert events[..|events| - 1][..n] == events[..n];
      VisiblePrefix(events[..|events| - 1], filter, n);
    }
  }

  /** Events the filter drops are skipped; the first failed write ends the loop. */
  method WriteAll(events: seq<Event>, filter: Event -> Option<Event>, writable: nat) returns (ok: bool, written: seq<Event>)
    ensures ok <==> |Visible(events, filter)| <= writable
    ensures written == if ok then Visible(events, filter) else Visible(events, filter)[..writable]
  {
    written := [];
    for i := 0 to |events|
      invariant written == Visible(events[..i], filter) && |written| <= writable
    {
      assert events[..i + 1][..i] == events[..i];
      VisiblePrefix(events, filter, i + 1);
      VisiblePrefix(events, filter, i);
      var filtered := filter(events[i]);
      if filtered.None? {
        continue;
      }
      if |written| == writable {
        return false, written;
      }
      written := written + [filtered.value];
    }
    assert events[..|events|] == events;
    return true, written;
  }

  /** What is replayed to the client: nothing without a store or without a last id. */
  ghost function Backlog(store: RedisReplayStore?, channel: string, lastEventId: string, limit: int, reachable: bool):
    Result<seq<Event>, ReplayError>
    reads if store == null then {} else {store}
  {
    if store == null || TrimSpace(lastEventId) == "" || channel == "" then Ok([])
    else if !reachable then Err(Unreachable)
    else Answer(store.StreamOf(channel), lastEventId, limit)
  }

  /**
   Serve up to the registration; the id it registers is returned. `writable` is the number
   of events the client can be sent before a write fails, and `registers` says whether the
   broker takes the connection.
   */
  method Serve(store: RedisReplayStore?, connectOk: bool, subscribeOk: bool, channel: string, lastEventId: string, limit: int,
               reachable: bool, filter: Event -> Option<Event>, writable: nat, connId: string, newId: string, registers: bool)
    returns (r: Result<string, ServeError>, written: seq<Event>)
    ensures !connectOk ==> r == Err(ConnectDenied) && written == []
    ensures connectOk && !subscribeOk ==> r == Err(SubscribeDenied) && written == []
    ensures connectOk && subscribeOk ==>
              var backlog := Backlog(store, channel, lastEventId, limit, reachable);
              if backlog.Err? then r == Err(ReplayFailed) && written == []
              else
                var visible := Visible(backlog.value, filter);
                if |visible| <= writable then
                  written == visible &&
                  r == if registers then Ok(if TrimSpace(connId) == "" then newId else TrimSpace(connId)) else Err(NotRegistered)
                else written == visible[..writable] && r == Err(WriteFailed)
  {
    written := [];
    if !connectOk {
      return Err(ConnectDenied), [];
    }
    if !subscribeOk {
      return Err(SubscribeDenied), [];
    }
    if store != null && TrimSpace(lastEventId) != "" {
      var replayed := store.ReplayAfter(channel, lastEventId, limit, reachable);
      if replayed.Err? {
        return Err(ReplayFailed), [];
      }
      var ok;
      ok, written := WriteAll(replayed.value, filter, writable);
      if !ok {
        return Err(WriteFailed), written;
      }
    }
    var id := TrimSpace(connId);
    if id == "" {
      id := newId;
    }
    if !registers {
      return Err(NotRegistered), written;
    }
    return Ok(id), written;
  }
}
