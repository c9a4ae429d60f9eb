/**
 A client of a replayed channel over all its connections: it reconnects with the last id it
 received, is sent a page of the stream, is registered, and from then on gets what is
 published. Events are appended to the stream first and published afterwards.
 */
module ReplayClient {
  import opened Wrappers
  import opened Text
  import opened Replay

  datatype Link = Offline | Replayed | Online

  /** `published` holds the positions of the entries whose live publication has happened. */
  datatype Client = Client(stream: Stream, published: set<nat>, link: Link, last: Option<Id>, received: seq<Event>)

  const INIT := Client([], {}, Offline, None, [])

  datatype Move = Append(entry: Entry) | Publish(index: nat) | Reconnect(limit: nat) | Register | Disconnect

  predicate HasEvent(s: Stream, i: nat) {
    i < |s| && s[i].body.Some?
  }

  function EventOf(e: Entry): Event
    requires e.body.Some?
  {
    Event(IdText(e.id), e.body.value)
  }

  /** Ids only grow, also beyond those the client has seen. */
  predicate ComesAfter(c: Client, id: Id) {
    (c.stream == [] || Less(c.stream[|c.stream| - 1].id, id)) && (c.last.Some? ==> Less(c.last.value, id))
  }

  predicate Enabled(c: Client, m: Move) {
    match m
    case Append(entry) => ComesAfter(c, entry.id)
    case Publish(i) => HasEvent(c.stream, i) && i !in c.published
    case Reconnect(_) => c.link.Offline?
    case Register => c.link.Replayed?
    case Disconnect => !c.link.Offline?
  }

  /** The client gets a live event, under the id Append gave it. */
  function Deliver(c: Client, i: nat): Client
    requires HasEvent(c.stream, i)
  {
    c.(last := Some(c.stream[i].id), received := c.received + [EventOf(c.stream[i])])
  }

  /** The first half of Serve. Without a last id there is no replay. */
  function ReplayTo(c: Client, limit: nat): Client {
    if c.last.None? then c.(link := Replayed)
    else
      var page := Page(c.stream, c.last.value, limit);
      var id := if page == [] then None else ReadId(page[|page| - 1].id);
      c.(link := Replayed, last := if id.Some? then id else c.last, received := c.received + page)
  }

  function Apply(c: Client, m: Move): Client
    requires Enabled(c, m)
  {
    match m
    case Append(entry) => c.(stream := c.stream + [entry])
    case Publish(i) =>
      var d := c.(published := c.published + {i});
      if c.link.Online? then Deliver(d, i) else d
    case Reconnect(limit) => ReplayTo(c, limit)
    case Register => c.(link := Online)
    case Disconnect => c.(link := Offline)
  }

  ghost predicate IsRun(c: Client, moves: seq<Move>)
    decreases |moves|
  {
    moves == [] || (Enabled(c, moves[0]) && IsRun(Apply(c, moves[0]), moves[1..]))
  }

  function After(c: Client, moves: seq<Move>): Client
    requires IsRun(c, moves)
    decreases |moves|
  {
    if moves == [] then c else After(Apply(c, moves[0]), moves[1..])
  }

  // ----- up to date -----

  /** The first entry the client is not past; `start` until it has received anything. */
  function Pos(c: Client, start: nat): nat {
    if c.last.None? then start else Position(c.stream, c.last.value)
  }

  /** The client has every event from `start` up to its position, once and in order. */
  ghost predicate UpToDate(c: Client, start: nat) {
    && Ordered(c.stream)
    && start <= Pos(c, start) <= |c.stream|
    && c.received == Good(c.stream[start..Pos(c, start)])
  }

  lemma LongerStaysOrdered(s: Stream, e: Entry)
    requires Ordered(s) && (s == [] || Less(s[|s| - 1].id, e.id))
    ensures Ordered(s + [e])
  {
    var t := s + [e];
    forall i, j | 0 <= i < j < |t|
      ensures Less(t[i].id, t[j].id)
    {
      if j == |s| && i < |s| - 1 {
        assert Less(s[i].id, s[|s| - 1].id);
      }
    }
  }

  lemma AppendKeeps(c: Client, start: nat, e: Entry)
    requires Ordered(c.stream) && start <= |c.stream| && ComesAfter(c, e.id)
    ensures Ordered(c.stream + [e]) && Pos(Apply(c, Append(e)), start) == Pos(c, start)
    ensures UpToDate(c, start) ==> UpToDate(Apply(c, Append(e)), start)
  {
    LongerStaysOrdered(c.stream, e);
    if c.last.Some? {
      PositionOfLonger(c.stream, [e], c.last.value);
    }
    if UpToDate(c, start) {
      assert (c.stream + [e])[start..Pos(c, start)] == c.stream[start..Pos(c, start)];
    }
  }

  lemma ReplayReads(c: Client, limit: nat, n: nat, e: nat)
    requires c.last.Some? && n <= e <= |c.stream| && Page(c.stream, c.last.value, limit) == Good(c.stream[n..e])
    requires e > n ==> c.stream[e - 1].body.Some?
    ensures ReplayTo(c, limit) ==
            c.(link := Replayed, last := if e == n then c.last else Some(c.stream[e - 1].id),
               received := c.received + Good(c.stream[n..e]))
  {
    if e == n {
      assert c.stream[n..e] == [];
    } else {
      PageEndsInEvent(c.stream, n, e);
      ReadInvertsIdText(c.stream[e - 1].id);
    }
  }

  /** Where a replay takes a client that has a last id. */
  lemma ReplayAdvances(c: Client, limit: nat) returns (n: nat, e: nat)
    requires Ordered(c.stream) && c.last.Some?
    ensures n == Position(c.stream, c.last.value) && e == PageEnd(c.stream, n, Limit(n, limit, |c.stream|))
    ensures ReplayTo(c, limit).received == c.received + Good(c.stream[n..e])
    ensures ReplayTo(c, limit).last == if e == n then c.last else Some(c.stream[e - 1].id)
    ensures Position(c.stream, ReplayTo(c, limit).last.value) == e
  {
    n := Position(c.stream, c.last.value);
    e := PageEnd(c.stream, n, Limit(n, limit, |c.stream|));
    PageIsSlice(c.stream, c.last.value, limit);
    ReplayReads(c, limit, n, e);
    if e > n {
      PositionOfEntry(c.stream, e);
    }
  }

  lemma ReplayKeeps(c: Client, start: nat, limit: nat)
    requires UpToDate(c, start)
    ensures UpToDate(ReplayTo(c, limit), start)
  {
    if c.last.Some? {
      var n, e := ReplayAdvances(c, limit);
      GoodSlices(c.stream, start, n, e);
    }
  }

  /** Entry `i` is the first event the client does not have. */
  ghost predicate IsNext(c: Client, start: nat, i: nat)
    requires i <= |c.stream|
  {
    Pos(c, start) <= i && Good(c.stream[Pos(c, start)..i]) == []
  }

  lemma GoodOfOneMore(s: Stream, a: nat, i: nat)
    requires a <= i < |s| && s[i].body.Some?
    ensures Good(s[a..i + 1]) == Good(s[a..i]) + [EventOf(s[i])]
  {
    var t := s[a..i + 1];
    assert t[..|t| - 1] == s[a..i] && t[|t| - 1] == s[i];
  }

  /** A live event, whichever it is, keeps the client up to date exactly when it is the next one. */
  lemma DeliverKeepsIff(c: Client, start: nat, i: nat)
    requires UpToDate(c, start) && HasEvent(c.stream, i)
    ensures UpToDate(Deliver(c, i), start) <==> IsNext(c, start, i)
  {
    DeliveredPosition(c, start, i);
    if Pos(c, start) <= i {
      LaterEventKeepsIff(c, start, i);
    } else if start <= i + 1 {
      EarlierEventRepeats(c, start, i);
    }
  }

  lemma DeliveredPosition(c: Client, start: nat, i: nat)
    requires Ordered(c.stream) && HasEvent(c.stream, i)
    ensures Pos(Deliver(c, i), start) == i + 1
  {
    PositionOfEntry(c.stream, i + 1);
  }

  lemma EarlierEventRepeats(c: Client, start: nat, i: nat)
    requires UpToDate(c, start) && HasEvent(c.stream, i) && start <= i + 1 <= Pos(c, start)
    ensures c.received + [EventOf(c.stream[i])] != Good(c.stream[start..i + 1])
  {
    GoodSlices(c.stream, start, i + 1, Pos(c, start));
  }

  lemma LaterEventKeepsIff(c: Client, start: nat, i: nat)
    requires UpToDate(c, start) && HasEvent(c.stream, i) && Pos(c, start) <= i
    ensures c.received + [EventOf(c.stream[i])] == Good(c.stream[start..i + 1]) <==> IsNext(c, start, i)
  {
    var n := Pos(c, start);
    GoodSlices(c.stream, start, n, i);
    GoodOfOneMore(c.stream, start, i);
    var had, skipped, got := c.received, Good(c.stream[n..i]), [EventOf(c.stream[i])];
    assert |had + skipped + got| == |had| + |skipped| + 1;
    if skipped == [] {
      assert had + skipped == had;
    }
  }

  // ----- any run -----

  /** A live delivery is of the next event. */
  ghost predicate LiveIsNext(c: Client, start: nat, m: Move)
    requires Enabled(c, m)
  {
    m.Publish? && c.link.Online? ==> IsNext(c, start, m.index)
  }

  lemma MoveKeepsIff(c: Client, start: nat, m: Move)
    requires UpToDate(c, start) && Enabled(c, m)
    ensures UpToDate(Apply(c, m), start) <==> LiveIsNext(c, start, m)
  {
    match m
    case Append(entry) => AppendKeeps(c, start, entry);
    case Publish(i) =>
      if c.link.Online? {
        DeliverKeepsIff(c.(published := c.published + {i}), start, i);
      }
    case Reconnect(limit) => ReplayKeeps(c, start, limit);
    case Register =>
    case Disconnect =>
  }

  ghost predicate UpToDateThroughout(c: Client, start: nat, moves: seq<Move>)
    requires IsRun(c, moves)
    decreases |moves|
  {
    UpToDate(c, start) && (moves == [] || UpToDateThroughout(Apply(c, moves[0]), start, moves[1..]))
  }

  ghost predicate EachLiveIsNext(c: Client, start: nat, moves: seq<Move>)
    requires IsRun(c, moves)
    decreases |moves|
  {
    moves == [] || (LiveIsNext(c, start, moves[0]) && EachLiveIsNext(Apply(c, moves[0]), start, moves[1..]))
  }

  /**
   Over any run of appends, publications in any order, reconnects, registrations and
   disconnects, nothing is skipped, repeated or reordered exactly when each live delivery
   is of the first event the client does not have: replays never do any harm.
   */
  lemma {:induction false} RunIsExactIff(c: Client, start: nat, moves: seq<Move>)
    requires UpToDate(c, start) && IsRun(c, moves)
    ensures UpToDateThroughout(c, start, moves) <==> EachLiveIsNext(c, start, moves)
    decreases |moves|
  {
    if moves != [] {
      MoveKeepsIff(c, start, moves[0]);
      if LiveIsNext(c, start, moves[0]) {
        RunIsExactIff(Apply(c, moves[0]), start, moves[1..]);
      }
    }
  }

  // ----- one connection, with publication in stream order -----

  /** The events before `p` have been published, and no other. */
  ghost predicate Frontier(c: Client, p: nat) {
    && p <= |c.stream|
    && (forall i: nat | HasEvent(c.stream, i) :: i in c.published <==> i < p)
    && (forall i | i in c.published :: HasEvent(c.stream, i))
  }

  /** No event before `i` is still to be published. */
  ghost predicate InTurn(c: Client, i: nat) {
    forall j: nat | j < i && HasEvent(c.stream, j) :: j in c.published
  }

  ghost predicate Orderly(c: Client, m: Move) {
    Enabled(c, m) && (m.Publish? ==> InTurn(c, m.index))
  }

  ghost predicate OrderlyRun(c: Client, moves: seq<Move>)
    decreases |moves|
  {
    moves == [] || (Orderly(c, moves[0]) && OrderlyRun(Apply(c, moves[0]), moves[1..]))
  }

  lemma {:induction false} OrderlyIsRun(c: Client, moves: seq<Move>)
    requires OrderlyRun(c, moves)
    ensures IsRun(c, moves)
    decreases |moves|
  {
    if moves != [] {
      OrderlyIsRun(Apply(c, moves[0]), moves[1..]);
    }
  }

  /** Nothing but appending and publishing. */
  predicate OnlyProducing(moves: seq<Move>) {
    moves == [] || ((moves[0].Append? || moves[0].Publish?) && OnlyProducing(moves[1..]))
  }

  ghost predicate NoEventBetween(s: Stream, a: nat, b: nat)
    requires a <= |s| && b <= |s|
  {
    if a <= b then Good(s[a..b]) == [] else Good(s[b..a]) == []
  }

  lemma NoEventBetweenIff(s: Stream, a: nat, b: nat)
    requires a <= |s| && b <= |s|
    ensures NoEventBetween(s, a, b) <==> forall i: nat | HasEvent(s, i) :: i < a <==> i < b
  {
    if a <= b {
      NoneGoodSlice(s, a, b);
    } else {
      NoneGoodSlice(s, b, a);
    }
    assert forall i: nat | i < |s| :: HasEvent(s, i) <==> s[i].body.Some?;
  }

  lemma FrontierMoves(c: Client, p: nat, m: Move) returns (p': nat)
    requires Frontier(c, p) && Orderly(c, m)
    ensures Frontier(Apply(c, m), p') && p <= p'
    ensures m.Publish? ==> p' == m.index + 1 && m.index >= p
    ensures !m.Publish? ==> p' == p
  {
    p' := if m.Publish? then m.index + 1 else p;
    var c' := Apply(c, m);
    forall i: nat | HasEvent(c'.stream, i)
      ensures i in c'.published <==> i < p'
    {
      if i < |c.stream| {
        assert HasEvent(c.stream, i);
      }
    }
  }

  /** The client is past exactly the events that have been published. */
  ghost predicate Aligned(c: Client, start: nat, p: nat) {
    Pos(c, start) <= |c.stream| && p <= |c.stream| && NoEventBetween(c.stream, Pos(c, start), p)
  }

  lemma AlignedPublishIsNext(c: Client, start: nat, p: nat, i: nat)
    requires UpToDate(c, start) && Frontier(c, p) && Aligned(c, start, p) && Orderly(c, Publish(i))
    ensures IsNext(c, start, i)
  {
    var n := Pos(c, start);
    NoEventBetweenIff(c.stream, n, p);
    assert HasEvent(c.stream, i);
    NoneGoodSlice(c.stream, n, i);
    forall k | n <= k < i
      ensures c.stream[k].body.None?
    {
      assert HasEvent(c.stream, k) ==> k in c.published && k < p;
    }
  }

  lemma AppendKeepsAligned(c: Client, start: nat, p: nat, e: Entry)
    requires Ordered(c.stream) && start <= |c.stream| && p <= |c.stream| && Pos(c, start) <= |c.stream| && ComesAfter(c, e.id)
    ensures Aligned(Apply(c, Append(e)), start, p) <==> Aligned(c, start, p)
  {
    var n, s' := Pos(c, start), c.stream + [e];
    AppendKeeps(c, start, e);
    if n <= p {
      assert s'[n..p] == c.stream[n..p];
    } else {
      assert s'[p..n] == c.stream[p..n];
    }
  }

  lemma PublishAligns(c: Client, start: nat, i: nat)
    requires c.link.Online? && Ordered(c.stream) && Enabled(c, Publish(i))
    ensures Aligned(Apply(c, Publish(i)), start, i + 1)
  {
    PositionOfEntry(c.stream, i + 1);
    assert c.stream[i + 1..i + 1] == [];
  }

  ghost predicate IsAligned(c: Client, start: nat, p: nat) {
    c.link.Online? && UpToDate(c, start) && Frontier(c, p) && Aligned(c, start, p)
  }

  lemma AlignedPublish(c: Client, start: nat, p: nat, i: nat) returns (p': nat)
    requires IsAligned(c, start, p) && Orderly(c, Publish(i))
    ensures IsAligned(Apply(c, Publish(i)), start, p')
  {
    p' := FrontierMoves(c, p, Publish(i));
    AlignedPublishKeeps(c, start, p, i);
    PublishAligns(c, start, i);
  }

  lemma AlignedPublishKeeps(c: Client, start: nat, p: nat, i: nat)
    requires IsAligned(c, start, p) && Orderly(c, Publish(i))
    ensures UpToDate(Apply(c, Publish(i)), start)
  {
    AlignedPublishIsNext(c, start, p, i);
    MoveKeepsIff(c, start, Publish(i));
  }

  lemma AlignedAppend(c: Client, start: nat, p: nat, e: Entry) returns (p': nat)
    requires IsAligned(c, start, p) && Orderly(c, Append(e))
    ensures IsAligned(Apply(c, Append(e)), start, p')
  {
    p' := FrontierMoves(c, p, Append(e));
    AppendKeepsAligned(c, start, p, e);
    MoveKeepsIff(c, start, Append(e));
  }

  lemma AlignedStays(c: Client, start: nat, p: nat, m: Move) returns (p': nat)
    requires IsAligned(c, start, p) && Orderly(c, m) && (m.Append? || m.Publish?)
    ensures IsAligned(Apply(c, m), start, p')
  {
    match m
    case Publish(i) => p' := AlignedPublish(c, start, p, i);
    case Append(e) => p' := AlignedAppend(c, start, p, e);
  }

  lemma {:induction false} AlignedStaysExact(c: Client, start: nat, p: nat, moves: seq<Move>)
    requires c.link.Online? && UpToDate(c, start) && Frontier(c, p) && Aligned(c, start, p)
    requires OrderlyRun(c, moves) && OnlyProducing(moves)
    ensures IsRun(c, moves) && UpToDate(After(c, moves), start)
    decreases |moves|
  {
    if moves != [] {
      var p' := AlignedStays(c, start, p, moves[0]);
      AlignedStaysExact(Apply(c, moves[0]), start, p', moves[1..]);
    }
  }

  /** Whatever is appended and published in order, the connected client stays up to date. */
  ghost predicate StaysExact(c: Client, start: nat) {
    forall moves | OrderlyRun(c, moves) && OnlyProducing(moves) :: IsRun(c, moves) && UpToDate(After(c, moves), start)
  }

  /** The first event from `p` on, if there is one. */
  lemma FirstEvent(s: Stream, p: nat) returns (i: nat)
    requires p <= |s|
    ensures p <= i <= |s| && (forall k | p <= k < i :: s[k].body.None?) && (i < |s| ==> s[i].body.Some?)
  {
    i := p;
    while i < |s| && s[i].body.None?
      invariant p <= i <= |s| && forall k | p <= k < i :: s[k].body.None?
    {
      i := i + 1;
    }
  }

  /** An id after all those so far: ids are 64-bit milliseconds and a sequence number. */
  predicate CanAppend(c: Client) {
    && (c.stream != [] ==> c.stream[|c.stream| - 1].id.ms < UINT64_MAX)
    && (c.last.Some? ==> c.last.value.ms < UINT64_MAX)
  }

  /** One more event published to a client that is not aligned. */
  lemma MisalignedBreaks(c: Client, start: nat, p: nat, body: Body) returns (moves: seq<Move>)
    requires c.link.Online? && UpToDate(c, start) && Frontier(c, p) && !Aligned(c, start, p) && CanAppend(c)
    ensures OrderlyRun(c, moves) && OnlyProducing(moves) && IsRun(c, moves) && !UpToDate(After(c, moves), start)
  {
    var i := FirstEvent(c.stream, p);
    if i < |c.stream| {
      moves := PublishBreaks(c, start, p, i);
    } else {
      var e := Entry(Id(UINT64_MAX, 0), Some(body));
      var m := Append(e);
      var c' := Apply(c, m);
      AppendKeeps(c, start, e);
      var p' := FrontierMoves(c, p, m);
      AppendKeepsAligned(c, start, p, e);
      var later := PublishBreaks(c', start, p, i);
      moves := [m] + later;
      assert moves[1..] == later;
    }
  }

  /** The next publication in turn is not of the next event for the client. */
  lemma PublishBreaks(c: Client, start: nat, p: nat, i: nat) returns (moves: seq<Move>)
    requires c.link.Online? && UpToDate(c, start) && Frontier(c, p) && !Aligned(c, start, p)
    requires p <= i && HasEvent(c.stream, i) && forall k | p <= k < i :: c.stream[k].body.None?
    ensures OrderlyRun(c, moves) && OnlyProducing(moves) && IsRun(c, moves) && !UpToDate(After(c, moves), start)
  {
    var m := Publish(i);
    var n := Pos(c, start);
    NoEventBetweenIff(c.stream, n, p);
    NoneGoodSlice(c.stream, n, if n <= i then i else n);
    assert i !in c.published && InTurn(c, i);
    assert !IsNext(c, start, i) by {
      var j: nat :| HasEvent(c.stream, j) && !(j < n <==> j < p);
      assert j < n ==> n > i;
    }
    MoveKeepsIff(c, start, m);
    moves := [m];
    var c' := Apply(c, m);
    assert moves[1..] == [] && OrderlyRun(c', []) && IsRun(c', []) && After(c', []) == c';
  }

  /**
   A connection that has just been registered misses and repeats nothing, whatever is then
   appended and published in stream order, exactly when the client is past just the events
   that have been published.
   */
  lemma RegistrationIsExactIff(c: Client, start: nat, p: nat)
    requires c.link.Online? && UpToDate(c, start) && Frontier(c, p) && CanAppend(c)
    ensures StaysExact(c, start) <==> Aligned(c, start, p)
  {
    if Aligned(c, start, p) {
      forall moves | OrderlyRun(c, moves) && OnlyProducing(moves)
        ensures IsRun(c, moves) && UpToDate(After(c, moves), start)
      {
        AlignedStaysExact(c, start, p, moves);
      }
    } else {
      var moves := MisalignedBreaks(c, start, p, Body("", "", "", 0, 0));
    }
  }

  lemma {:induction false} ProducingKeepsPosition(c: Client, start: nat, p: nat, moves: seq<Move>) returns (p': nat)
    requires !c.link.Online? && UpToDate(c, start) && Frontier(c, p) && OrderlyRun(c, moves) && OnlyProducing(moves)
    ensures IsRun(c, moves)
    ensures var d := After(c, moves);
            && d.link == c.link && d.last == c.last && UpToDate(d, start) && Frontier(d, p')
            && Pos(d, start) == Pos(c, start) && c.stream <= d.stream
    decreases |moves|
  {
    p' := p;
    if moves != [] {
      var c' := Apply(c, moves[0]);
      p' := FrontierMoves(c, p, moves[0]);
      if moves[0].Append? {
        AppendKeeps(c, start, moves[0].entry);
      }
      p' := ProducingKeepsPosition(c', start, p', moves[1..]);
    }
  }

  /** One past the last entry that a page reaches, and the client's position when there is no page. */
  function PageWindow(c: Client, start: nat, limit: nat): nat
    requires Pos(c, start) <= |c.stream|
  {
    if c.last.None? then start else Limit(Pos(c, start), limit, |c.stream|)
  }

  lemma ReplayEndsInWindow(c: Client, start: nat, limit: nat)
    requires UpToDate(c, start)
    ensures var n, e, m := Pos(c, start), Pos(ReplayTo(c, limit), start), PageWindow(c, start, limit);
            n <= e <= m <= |c.stream| && forall k | e <= k < m :: c.stream[k].body.None?
  {
    if c.last.Some? {
      var n, e := ReplayAdvances(c, limit);
    }
  }

  /**
   A whole connection, in terms of what can be seen before it goes live: the client is at
   `n`, a page of at most `limit` entries is replayed, more is appended and published in the
   window before the registration, and by then the first `p` entries have been published.
   It misses and repeats nothing exactly when no event lies between the end of the page and `p`.
   */
  lemma ConnectionIsExactIff(c: Client, start: nat, limit: nat, window: seq<Move>, p: nat)
    requires c.link.Offline? && UpToDate(c, start) && Frontier(c, p)
    requires OrderlyRun(ReplayTo(c, limit), window) && OnlyProducing(window)
    ensures IsRun(ReplayTo(c, limit), window)
    ensures var d := After(ReplayTo(c, limit), window);
            var m := PageWindow(c, start, limit);
            m <= |d.stream| && d.link.Replayed? &&
            forall p' | Frontier(d, p') && CanAppend(d) :: StaysExact(Apply(d, Register), start) <==> NoEventBetween(d.stream, m, p')
  {
    var r := ReplayTo(c, limit);
    ReplayKeeps(c, start, limit);
    ReplayEndsInWindow(c, start, limit);
    var q := ProducingKeepsPosition(r, start, p, window);
    var d := After(r, window);
    forall p' | Frontier(d, p') && CanAppend(d)
      ensures StaysExact(Apply(d, Register), start) <==> NoEventBetween(d.stream, PageWindow(c, start, limit), p')
    {
      RegisteredIsExactIff(d, start, PageWindow(c, start, limit), p');
    }
  }

  lemma RegisteredIsExactIff(d: Client, start: nat, m: nat, p: nat)
    requires d.link.Replayed? && UpToDate(d, start) && Frontier(d, p) && CanAppend(d)
    requires Pos(d, start) <= m <= |d.stream| && forall k | Pos(d, start) <= k < m :: d.stream[k].body.None?
    ensures StaysExact(Apply(d, Register), start) <==> NoEventBetween(d.stream, m, p)
  {
    RegistrationIsExactIff(Apply(d, Register), start, p);
    SameEventsBetween(d.stream, Pos(d, start), m, p);
  }

  lemma SameEventsBetween(s: Stream, e: nat, m: nat, p: nat)
    requires e <= m <= |s| && p <= |s| && forall k | e <= k < m :: s[k].body.None?
    ensures NoEventBetween(s, e, p) <==> NoEventBetween(s, m, p)
  {
    NoEventBetweenIff(s, m, p);
    NoEventBetweenIff(s, e, p);
    assert forall i: nat | HasEvent(s, i) :: i < e <==> i < m;
  }

  // ----- runs in which only Append writes -----

  /** What Append stores can be decoded. */
  predicate OnlyAppend(moves: seq<Move>) {
    forall m | m in moves && m.Append? :: m.entry.body.Some?
  }

  lemma {:induction false} AppendedRunDecodes(c: Client, moves: seq<Move>)
    requires IsRun(c, moves) && OnlyAppend(moves) && Decodes(c.stream)
    ensures Decodes(After(c, moves).stream)
    decreases |moves|
  {
    if moves != [] {
      AppendedRunDecodes(Apply(c, moves[0]), moves[1..]);
    }
  }

  /** From the start no page is ever full of undecodable entries, whatever its size. */
  lemma AppendedRunHasNoBlock(moves: seq<Move>, limit: nat)
    requires limit > 0 && IsRun(INIT, moves) && OnlyAppend(moves)
    ensures NoBlock(After(INIT, moves).stream, limit)
  {
    AppendedRunDecodes(INIT, moves);
    DecodesHasNoBlock(After(INIT, moves).stream, limit);
  }

  /**
   A connection on a stream that only Append has written, after any history: it misses and
   repeats nothing exactly when the page ends where the published entries end.
   */
  lemma AppendedConnectionIsExactIff(before: seq<Move>, start: nat, limit: nat, window: seq<Move>, p: nat)
    requires IsRun(INIT, before) && OnlyAppend(before) && OnlyAppend(window)
    requires var c := After(INIT, before);
             && c.link.Offline? && UpToDate(c, start) && Frontier(c, p)
             && OrderlyRun(ReplayTo(c, limit), window) && OnlyProducing(window)
    ensures var c := After(INIT, before);
            IsRun(ReplayTo(c, limit), window) &&
            var d := After(ReplayTo(c, limit), window);
            d.link.Replayed? &&
            forall p' | Frontier(d, p') && CanAppend(d) :: StaysExact(Apply(d, Register), start) <==> PageWindow(c, start, limit) == p'
  {
    var c := After(INIT, before);
    AppendedRunDecodes(INIT, before);
    ConnectionIsExactIff(c, start, limit, window, p);
    AppendedRunDecodes(ReplayTo(c, limit), window);
    var d := After(ReplayTo(c, limit), window);
    forall p' | Frontier(d, p') && CanAppend(d)
      ensures NoEventBetween(d.stream, PageWindow(c, start, limit), p') <==> PageWindow(c, start, limit) == p'
    {
      EventsEverywhere(d.stream, PageWindow(c, start, limit), p');
    }
  }

  lemma EventsEverywhere(s: Stream, m: nat, p: nat)
    requires m <= |s| && p <= |s| && Decodes(s)
    ensures NoEventBetween(s, m, p) <==> m == p
  {
    NoEventBetweenIff(s, m, p);
    assert m < p ==> HasEvent(s, m);
    assert p < m ==> HasEvent(s, p);
  }

  // ----- enough reconnects -----

  function Reconnects(moves: seq<Move>): nat {
    if moves == [] then 0 else (if moves[0].Reconnect? then 1 else 0) + Reconnects(moves[1..])
  }

  /** No page is smaller. */
  predicate PagesAtLeast(moves: seq<Move>, limit: nat) {
    forall m | m in moves && m.Reconnect? :: m.limit >= limit
  }

  lemma SmallerHasNoBlock(s: Stream, t: Stream, limit: nat, larger: nat)
    requires s <= t && limit <= larger && NoBlock(t, limit)
    ensures NoBlock(s, larger)
  {
    forall i: nat
      ensures !Block(s, i, larger)
    {
      assert !Block(t, i, limit);
    }
  }

  lemma EmptyPageMeansAll(c: Client, start: nat, limit: nat)
    requires UpToDate(c, start) && c.last.Some? && NoBlock(c.stream, limit)
    requires Page(c.stream, c.last.value, limit) == []
    ensures c.received == Good(c.stream[start..|c.stream|])
  {
    var n := Pos(c, start);
    EmptyPageIff(c.stream, c.last.value, limit);
    assert !Block(c.stream, n, limit);
    GoodSlices(c.stream, start, n, |c.stream|);
    assert c.received + [] == c.received;
  }

  lemma PageAdvances(c: Client, start: nat, limit: nat)
    requires UpToDate(c, start) && c.last.Some? && Page(c.stream, c.last.value, limit) != []
    ensures Pos(ReplayTo(c, limit), start) > Pos(c, start)
  {
    PageEndsBeyond(c.stream, c.last.value, limit);
    var n, e := ReplayAdvances(c, limit);
  }

  lemma PageEndsBeyond(s: Stream, last: Id, limit: nat)
    requires Ordered(s) && Page(s, last, limit) != []
    ensures var n := Position(s, last); PageEnd(s, n, Limit(n, limit, |s|)) > n
  {
    var n := Position(s, last);
    PageIsSlice(s, last, limit);
    assert s[n..n] == [];
  }

  /** The client has every event of `s` from `start` on, in order and before anything else. */
  ghost predicate HasAll(c: Client, start: nat, s: Stream)
    requires start <= |s|
  {
    Good(s[start..]) <= c.received
  }

  lemma {:induction false} ReceivedGrows(c: Client, moves: seq<Move>)
    requires IsRun(c, moves)
    ensures c.received <= After(c, moves).received && c.stream <= After(c, moves).stream
    decreases |moves|
  {
    if moves != [] {
      ReceivedGrows(Apply(c, moves[0]), moves[1..]);
    }
  }

  lemma PastMeansAll(c: Client, start: nat, s: Stream)
    requires UpToDate(c, start) && s <= c.stream && start <= |s| <= Pos(c, start)
    ensures HasAll(c, start, s)
  {
    GoodSlices(c.stream, start, |s|, Pos(c, start));
    assert c.stream[start..|s|] == s[start..];
  }

  lemma PageAdvancesOrAll(c: Client, start: nat, n: nat, limit: nat, s: Stream)
    requires UpToDate(c, start) && c.last.Some? && s <= c.stream && start <= |s|
    requires n >= limit && NoBlock(c.stream, limit)
    ensures Pos(ReplayTo(c, n), start) > Pos(c, start) || HasAll(c, start, s)
  {
    if Page(c.stream, c.last.value, n) == [] {
      SmallerHasNoBlock(c.stream, c.stream, limit, n);
      EmptyPageMeansAll(c, start, n);
      AllOfPrefix(c, start, s);
    } else {
      PageAdvances(c, start, n);
    }
  }

  lemma AllOfPrefix(c: Client, start: nat, s: Stream)
    requires s <= c.stream && start <= |s| && c.received == Good(c.stream[start..|c.stream|])
    ensures HasAll(c, start, s)
  {
    GoodSlices(c.stream, start, |s|, |c.stream|);
    assert c.stream[start..|s|] == s[start..];
  }

  lemma DeliveryAdvances(c: Client, start: nat, i: nat)
    requires UpToDate(c, start) && c.last.Some? && HasEvent(c.stream, i) && IsNext(c, start, i)
    ensures Pos(Deliver(c, i), start) > Pos(c, start)
  {
    PositionOfEntry(c.stream, i + 1);
  }

  /** No move of an exact run takes the client back. */
  lemma MoveAdvances(c: Client, start: nat, m: Move)
    requires UpToDate(c, start) && c.last.Some? && Enabled(c, m) && LiveIsNext(c, start, m)
    ensures var d := Apply(c, m); d.last.Some? && Pos(d, start) >= Pos(c, start)
  {
    match m
    case Append(entry) => AppendKeeps(c, start, entry);
    case Publish(i) =>
      if c.link.Online? {
        DeliveryAdvances(c.(published := c.published + {i}), start, i);
      }
    case Reconnect(n) => var from, to := ReplayAdvances(c, n);
    case Register =>
    case Disconnect =>
  }

  /**
   Over any run that skips and repeats nothing live, with appends, publications and
   registrations between the reconnects: once the client has reconnected as often as it was
   entries behind the end of `s`, it has every event of `s`, for any positive page size, unless
   a page-long block of undecodable entries exists.
   */
  lemma {:induction false} EnoughReconnectsGetAll(c: Client, start: nat, limit: nat, s: Stream, moves: seq<Move>)
    requires UpToDate(c, start) && c.last.Some? && s <= c.stream && start <= |s|
    requires IsRun(c, moves) && EachLiveIsNext(c, start, moves)
    requires PagesAtLeast(moves, limit) && NoBlock(After(c, moves).stream, limit)
    requires Pos(c, start) + Reconnects(moves) >= |s|
    ensures HasAll(After(c, moves), start, s)
    decreases |moves|
  {
    ReceivedGrows(c, moves);
    SmallerHasNoBlock(c.stream, After(c, moves).stream, limit, limit);
    if Pos(c, start) >= |s| {
      PastMeansAll(c, start, s);
    } else {
      var m := moves[0];
      MoveKeepsIff(c, start, m);
      MoveAdvances(c, start, m);
      if m.Reconnect? {
        PageAdvancesOrAll(c, start, m.limit, limit, s);
      }
      if !HasAll(c, start, s) {
        EnoughReconnectsGetAll(Apply(c, m), start, limit, s, moves[1..]);
      }
    }
  }

  /** On a stream that only Append writes there is no such block. */
  lemma AppendedReconnectsGetAll(before: seq<Move>, start: nat, limit: nat, moves: seq<Move>)
    requires IsRun(INIT, before) && OnlyAppend(before) && OnlyAppend(moves) && limit > 0
    requires var c := After(INIT, before);
             && UpToDate(c, start) && c.last.Some?
             && IsRun(c, moves) && EachLiveIsNext(c, start, moves) && PagesAtLeast(moves, limit)
             && Pos(c, start) + Reconnects(moves) >= |c.stream|
    ensures var c := After(INIT, before); HasAll(After(c, moves), start, c.stream)
  {
    var c := After(INIT, before);
    AppendedRunDecodes(INIT, before);
    AppendedRunDecodes(c, moves);
    DecodesHasNoBlock(After(c, moves).stream, limit);
    EnoughReconnectsGetAll(c, start, limit, c.stream, moves);
  }

  // ----- events that are lost for good -----

  lemma EventsDiffer(s: Stream, i: nat, j: nat)
    requires Ordered(s) && HasEvent(s, i) && HasEvent(s, j) && i != j
    ensures EventOf(s[i]) != EventOf(s[j])
  {
    ReadInvertsIdText(s[i].id);
    ReadInvertsIdText(s[j].id);
    assert if i < j then Less(s[i].id, s[j].id) else Less(s[j].id, s[i].id);
  }

  lemma {:induction false} GoodMember(s: Stream, a: nat, b: nat, e: Event) returns (j: nat)
    requires a <= b <= |s| && e in Good(s[a..b])
    ensures a <= j < b && HasEvent(s, j) && EventOf(s[j]) == e
    decreases b
  {
    var t := s[a..b];
    assert t != [];
    assert t[..|t| - 1] == s[a..b - 1] && t[|t| - 1] == s[b - 1];
    if e in Good(s[a..b - 1]) {
      j := GoodMember(s, a, b - 1, e);
    } else {
      j := b - 1;
    }
  }

  /** A published event the client has not received, and is past or kept from by a block. */
  ghost predicate Doomed(c: Client, p: nat, limit: nat, k: nat) {
    && Ordered(c.stream) && Frontier(c, p) && c.last.Some? && HasEvent(c.stream, k) && k < p
    && EventOf(c.stream[k]) !in c.received
    && (k < Position(c.stream, c.last.value) || Block(c.stream, Position(c.stream, c.last.value), limit))
  }

  lemma ReplayMisses(c: Client, p: nat, limit: nat, k: nat, m: nat)
    requires Doomed(c, p, limit, k) && (k < Position(c.stream, c.last.value) || m <= limit)
    ensures Doomed(ReplayTo(c, m), p, limit, k)
    ensures k < Position(c.stream, c.last.value) ==> k < Position(c.stream, ReplayTo(c, m).last.value)
  {
    var n, e := ReplayAdvances(c, m);
    var event := EventOf(c.stream[k]);
    if k < n {
      if event in Good(c.stream[n..e]) {
        var j := GoodMember(c.stream, n, e, event);
        EventsDiffer(c.stream, j, k);
      }
    } else {
      assert e == n;
      assert c.stream[n..e] == [];
    }
  }

  lemma LiveMisses(c: Client, p: nat, limit: nat, k: nat, i: nat) returns (p': nat)
    requires Doomed(c, p, limit, k) && Orderly(c, Publish(i))
    ensures Doomed(Apply(c, Publish(i)), p', limit, k)
    ensures k < Position(c.stream, c.last.value) ==> k < Position(c.stream, Apply(c, Publish(i)).last.value)
  {
    p' := FrontierMoves(c, p, Publish(i));
    LiveIsAnother(c, p, k, i);
    PositionOfEntry(c.stream, i + 1);
  }

  lemma LiveIsAnother(c: Client, p: nat, k: nat, i: nat)
    requires Ordered(c.stream) && Frontier(c, p) && HasEvent(c.stream, k) && k < p && Orderly(c, Publish(i))
    ensures k < i && EventOf(c.stream[i]) != EventOf(c.stream[k])
  {
    EventsDiffer(c.stream, i, k);
  }

  lemma AppendMisses(c: Client, p: nat, limit: nat, k: nat, e: Entry) returns (p': nat)
    requires Doomed(c, p, limit, k) && Orderly(c, Append(e))
    ensures Doomed(Apply(c, Append(e)), p', limit, k)
    ensures Position(Apply(c, Append(e)).stream, c.last.value) == Position(c.stream, c.last.value)
  {
    p' := FrontierMoves(c, p, Append(e));
    AppendKeeps(c, 0, e);
    assert forall j | 0 <= j < |c.stream| :: (c.stream + [e])[j] == c.stream[j];
  }

  /** No replay asks for more than `limit`; a client that is past `k` may ask for anything. */
  ghost predicate LimitsAtMost(moves: seq<Move>, limit: nat) {
    moves == [] || ((moves[0].Reconnect? ==> moves[0].limit <= limit) && LimitsAtMost(moves[1..], limit))
  }

  lemma DoomedStays(c: Client, p: nat, limit: nat, k: nat, m: Move) returns (p': nat)
    requires Doomed(c, p, limit, k) && Orderly(c, m)
    requires k < Position(c.stream, c.last.value) || (m.Reconnect? ==> m.limit <= limit)
    ensures Doomed(Apply(c, m), p', limit, k)
    ensures k < Position(c.stream, c.last.value) ==> k < Position(Apply(c, m).stream, Apply(c, m).last.value)
  {
    match m
    case Append(e) => p' := AppendMisses(c, p, limit, k, e);
    case Publish(i) => p' := LiveMisses(c, p, limit, k, i);
    case Reconnect(n) => ReplayMisses(c, p, limit, k, n); p' := p;
    case Register => p' := p;
    case Disconnect => p' := p;
  }

  /** A published event that the client is past without having received it never reaches it again. */
  lemma {:induction false} PassedIsLost(c: Client, p: nat, k: nat, moves: seq<Move>)
    requires Doomed(c, p, 0, k) && k < Position(c.stream, c.last.value) && OrderlyRun(c, moves)
    ensures IsRun(c, moves) && EventOf(c.stream[k]) !in After(c, moves).received
    decreases |moves|
  {
    if moves != [] {
      var p' := DoomedStays(c, p, 0, k, moves[0]);
      assert Apply(c, moves[0]).stream[k] == c.stream[k];
      PassedIsLost(Apply(c, moves[0]), p', k, moves[1..]);
    }
  }

  /**
   In front of a block of undecodable entries a page long, what has been published behind it
   never reaches the client; only what is published to it live from now on does.
   */
  lemma {:induction false} BlockedIsLost(c: Client, p: nat, limit: nat, k: nat, moves: seq<Move>)
    requires Doomed(c, p, limit, k) && OrderlyRun(c, moves) && LimitsAtMost(moves, limit)
    ensures IsRun(c, moves) && EventOf(c.stream[k]) !in After(c, moves).received
    decreases |moves|
  {
    if moves != [] {
      var p' := DoomedStays(c, p, limit, k, moves[0]);
      assert Apply(c, moves[0]).stream[k] == c.stream[k];
      BlockedIsLost(Apply(c, moves[0]), p', limit, k, moves[1..]);
    }
  }

  // ----- the ways to go wrong, from the beginning -----

  ghost predicate Reachable(c: Client) {
    exists moves :: OrderlyRun(INIT, moves) && IsRun(INIT, moves) && After(INIT, moves) == c
  }

  lemma StartIsReachable()
    ensures Reachable(INIT)
  {
    assert OrderlyRun(INIT, []) && IsRun(INIT, []) && After(INIT, []) == INIT;
  }

  lemma {:induction false} RunExtends(c: Client, moves: seq<Move>, m: Move)
    requires OrderlyRun(c, moves) && IsRun(c, moves) && Orderly(After(c, moves), m)
    ensures OrderlyRun(c, moves + [m]) && IsRun(c, moves + [m]) && After(c, moves + [m]) == Apply(After(c, moves), m)
    decreases |moves|
  {
    if moves == [] {
      var d := Apply(c, m);
      assert moves + [m] == [m] && [m][1..] == [];
      assert OrderlyRun(d, []) && IsRun(d, []) && After(d, []) == d;
    } else {
      assert (moves + [m])[1..] == moves[1..] + [m];
      RunExtends(Apply(c, moves[0]), moves[1..], m);
    }
  }

  lemma ReachableStep(c: Client, m: Move)
    requires Reachable(c) && Orderly(c, m)
    ensures Reachable(Apply(c, m))
  {
    var moves :| OrderlyRun(INIT, moves) && IsRun(INIT, moves) && After(INIT, moves) == c;
    RunExtends(INIT, moves, m);
  }

  /** A page of one entry right behind the client's position. */
  lemma OneEntryPage(c: Client, n: nat)
    requires Ordered(c.stream) && 0 < n < |c.stream| && c.last == Some(c.stream[n - 1].id)
    ensures ReplayTo(c, 1) ==
            if c.stream[n].body.Some?
            then c.(link := Replayed, last := Some(c.stream[n].id), received := c.received + [EventOf(c.stream[n])])
            else c.(link := Replayed)
  {
    PositionOfEntry(c.stream, n);
    var m, e := ReplayAdvances(c, 1);
    assert e == if c.stream[n].body.Some? then n + 1 else n;
    ReplayReadsOne(c, n, e);
  }

  lemma ReplayReadsOne(c: Client, n: nat, e: nat)
    requires n < |c.stream| && c.last.Some? && e == (if c.stream[n].body.Some? then n + 1 else n)
    requires ReplayTo(c, 1).received == c.received + Good(c.stream[n..e])
    ensures ReplayTo(c, 1).received == c.received + if c.stream[n].body.Some? then [EventOf(c.stream[n])] else []
  {
    if e == n + 1 {
      GoodOfOneMore(c.stream, n, n);
    }
    assert c.stream[n..n] == [];
  }

  predicate InOrder(entries: seq<Entry>) {
    forall i, j | 0 <= i < j < |entries| :: Less(entries[i].id, entries[j].id)
  }

  /** A client that has received the first event live and has gone offline. */
  lemma FirstEventReceived(e0: Entry) returns (c: Client)
    requires e0.body.Some?
    ensures Reachable(c) && c == Client([e0], {0}, Offline, Some(e0.id), [EventOf(e0)])
  {
    StartIsReachable();
    ReachableStep(INIT, Append(e0));
    var c1 := Apply(INIT, Append(e0));
    ReachableStep(c1, Reconnect(1));
    var c2 := Apply(c1, Reconnect(1));
    ReachableStep(c2, Register);
    var c3 := Apply(c2, Register);
    ReachableStep(c3, Publish(0));
    var c4 := Apply(c3, Publish(0));
    ReachableStep(c4, Disconnect);
    c := Apply(c4, Disconnect);
  }

  /** One more entry, and its publication if it is an event, while the client is not connected. */
  lemma AppendUnseen(c: Client, e: Entry, p: nat) returns (d: Client)
    requires Reachable(c) && !c.link.Online? && Frontier(c, p) && p == |c.stream| && ComesAfter(c, e.id)
    ensures d == c.(stream := c.stream + [e], published := c.published + if e.body.Some? then {|c.stream|} else {})
    ensures Reachable(d) && Frontier(d, |d.stream|)
  {
    ReachableStep(c, Append(e));
    d := Apply(c, Append(e));
    var q := FrontierMoves(c, p, Append(e));
    if e.body.Some? {
      ReachableStep(d, Publish(|c.stream|));
      q := FrontierMoves(d, q, Publish(|c.stream|));
      d := Apply(d, Publish(|c.stream|));
    } else {
      assert c.published + {} == c.published;
    }
  }

  /** A client is registered, and one more event is appended and published. */
  lemma RegisterThenLive(c: Client, e: Entry) returns (d: Client)
    requires Reachable(c) && c.link.Replayed? && Frontier(c, |c.stream|) && e.body.Some? && ComesAfter(c, e.id)
    ensures Reachable(d) && Frontier(d, |d.stream|)
    ensures d == Client(c.stream + [e], c.published + {|c.stream|}, Online, Some(e.id), c.received + [EventOf(e)])
  {
    ReachableStep(c, Register);
    var c1 := Apply(c, Register);
    ReachableStep(c1, Append(e));
    var c2 := Apply(c1, Append(e));
    var p := FrontierMoves(c1, |c.stream|, Append(e));
    ReachableStep(c2, Publish(|c.stream|));
    d := Apply(c2, Publish(|c.stream|));
    p := FrontierMoves(c2, p, Publish(|c.stream|));
  }

  /** A client comes back, is replayed one entry, is registered, and one more event is appended and published. */
  lemma ReplayThenLive(c: Client, n: nat, e: Entry) returns (d: Client)
    requires Reachable(c) && c.link.Offline? && Ordered(c.stream) && Frontier(c, |c.stream|)
    requires 0 < n < |c.stream| && c.last == Some(c.stream[n - 1].id)
    requires e.body.Some? && ComesAfter(c, e.id) && ComesAfter(ReplayTo(c, 1), e.id)
    ensures Reachable(d)
    ensures d == Client(c.stream + [e], c.published + {|c.stream|}, Online, Some(e.id),
                        c.received + (if c.stream[n].body.Some? then [EventOf(c.stream[n])] else []) + [EventOf(e)])
    ensures Frontier(d, |d.stream|)
  {
    OneEntryPage(c, n);
    ReachableStep(c, Reconnect(1));
    d := RegisterThenLive(Apply(c, Reconnect(1)), e);
    assert c.received + [] == c.received;
  }

  /** A client that has received the last entry of its stream, but not the event `k` before it. */
  lemma PassedOverIsLost(c: Client, k: nat)
    requires Ordered(c.stream) && Frontier(c, |c.stream|) && HasEvent(c.stream, k) && k < |c.stream| - 1
    requires c.last == Some(c.stream[|c.stream| - 1].id) && EventOf(c.stream[k]) !in c.received
    ensures forall moves | OrderlyRun(c, moves) :: IsRun(c, moves) && EventOf(c.stream[k]) !in After(c, moves).received
  {
    PositionOfEntry(c.stream, |c.stream|);
    LostForGood(c, k);
  }

  lemma LostForGood(c: Client, k: nat)
    requires Doomed(c, |c.stream|, 0, k) && k < Position(c.stream, c.last.value)
    ensures forall moves | OrderlyRun(c, moves) :: IsRun(c, moves) && EventOf(c.stream[k]) !in After(c, moves).received
  {
    forall moves | OrderlyRun(c, moves)
      ensures IsRun(c, moves) && EventOf(c.stream[k]) !in After(c, moves).received
    {
      PassedIsLost(c, |c.stream|, k, moves);
    }
  }

  lemma BacklogOfTwo(e0: Entry, e1: Entry, e2: Entry) returns (c: Client)
    requires Less(e0.id, e1.id) && Less(e0.id, e2.id) && Less(e1.id, e2.id) && e0.body.Some? && e1.body.Some? && e2.body.Some?
    ensures Reachable(c) && c.link.Offline? && c.stream == [e0, e1, e2] && Ordered(c.stream) && Frontier(c, 3)
    ensures c.last == Some(e0.id) && c.received == [EventOf(e0)]
  {
    var c0 := FirstEventReceived(e0);
    var c1 := AppendUnseen(c0, e1, 1);
    c := AppendUnseen(c1, e2, 2);
    assert c.stream == [e0, e1, e2];
  }

  lemma ThirdIsMissing(e: seq<Entry>)
    requires |e| == 4 && InOrder(e) && forall i | 0 <= i < 4 :: e[i].body.Some?
    ensures EventOf(e[2]) !in [EventOf(e[0]), EventOf(e[1]), EventOf(e[3])]
  {
    EventsDiffer(e, 0, 2);
    EventsDiffer(e, 1, 2);
    EventsDiffer(e, 3, 2);
  }

  /** A backlog of two events and a page of one: the second is passed over by the next live event and lost. */
  lemma BacklogBeyondThePageIsLost(e: seq<Entry>) returns (c: Client)
    requires |e| == 4 && InOrder(e) && forall i | 0 <= i < 4 :: e[i].body.Some?
    ensures Reachable(c) && c.received == [EventOf(e[0]), EventOf(e[1]), EventOf(e[3])]
    ensures forall moves | OrderlyRun(c, moves) :: IsRun(c, moves) && EventOf(e[2]) !in After(c, moves).received
  {
    var b := BacklogOfTwo(e[0], e[1], e[2]);
    OneEntryPage(b, 1);
    c := ReplayThenLive(b, 1, e[3]);
    assert c.stream == e;
    ThirdIsMissing(e);
    PassedOverIsLost(c, 2);
  }

  /** An undecodable entry fills the page, and the event behind it is lost: Append stores none such, but another writer may. */
  lemma EventBehindABlockIsLost(e: seq<Entry>) returns (c: Client)
    requires |e| == 3 && InOrder(e) && e[0].body.Some? && e[1].body.None? && e[2].body.Some?
    ensures Reachable(c) && c.received == [EventOf(e[0])] && c.last == Some(e[0].id) && Page(e, e[0].id, 1) == []
    ensures forall moves | OrderlyRun(c, moves) && LimitsAtMost(moves, 1) ::
              IsRun(c, moves) && EventOf(e[2]) !in After(c, moves).received
  {
    var c0 := FirstEventReceived(e[0]);
    var c1 := AppendUnseen(c0, e[1], 1);
    c := AppendUnseen(c1, e[2], 2);
    assert c.stream == e;
    PositionOfEntry(e, 1);
    EventsDiffer(e, 0, 2);
    EmptyPageIff(e, e[0].id, 1);
    forall moves | OrderlyRun(c, moves) && LimitsAtMost(moves, 1)
      ensures IsRun(c, moves) && EventOf(e[2]) !in After(c, moves).received
    {
      BlockedIsLost(c, 3, 1, 2, moves);
    }
  }

  /** Published between the replay and the registration: passed over by the next live event and lost. */
  lemma PublishedInTheWindowIsLost(e: seq<Entry>) returns (c: Client)
    requires |e| == 3 && InOrder(e) && forall i | 0 <= i < 3 :: e[i].body.Some?
    ensures Reachable(c) && c.received == [EventOf(e[0]), EventOf(e[2])]
    ensures forall moves | OrderlyRun(c, moves) :: IsRun(c, moves) && EventOf(e[1]) !in After(c, moves).received
  {
    var c0 := FirstEventReceived(e[0]);
    ReachableStep(c0, Reconnect(1));
    NothingToReplay(c0);
    var c1 := Apply(c0, Reconnect(1));
    var c2 := AppendUnseen(c1, e[1], 1);
    c := RegisterThenLive(c2, e[2]);
    assert c.stream == e;
    EventsDiffer(e, 0, 1);
    EventsDiffer(e, 2, 1);
    PassedOverIsLost(c, 1);
  }

  lemma NothingToReplay(c: Client)
    requires Ordered(c.stream) && c.stream != [] && c.last == Some(c.stream[|c.stream| - 1].id)
    ensures ReplayTo(c, 1) == c.(link := Replayed)
  {
    PositionOfEntry(c.stream, |c.stream|);
    var n, e := ReplayAdvances(c, 1);
    assert c.stream[n..e] == [];
    ReplayReads(c, 1, n, e);
  }

  /** Appended before the replay and published after the registration: received twice. */
  lemma PublishedAfterReplayIsRepeated(e: seq<Entry>) returns (c: Client)
    requires |e| == 2 && InOrder(e) && e[0].body.Some? && e[1].body.Some?
    ensures Reachable(c) && c.received == [EventOf(e[0]), EventOf(e[1]), EventOf(e[1])]
  {
    var c0 := FirstEventReceived(e[0]);
    ReachableStep(c0, Append(e[1]));
    var c1 := Apply(c0, Append(e[1]));
    assert c1.stream == e;
    OneEntryPage(c1, 1);
    ReachableStep(c1, Reconnect(1));
    var c2 := Apply(c1, Reconnect(1));
    ReachableStep(c2, Register);
    var c3 := Apply(c2, Register);
    ReachableStep(c3, Publish(1));
    c := Apply(c3, Publish(1));
  }
}
