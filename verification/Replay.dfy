/**
 The replay log: durable events are appended to a channel's stream, and a client that
 reconnects reads on from the last id it received.
 */
module Replay {
  import opened Wrappers
  import opened Text

  // ----- entry ids -----

  datatype Id = Id(ms: uint64, seq_: uint64)

  predicate Less(a: Id, b: Id) {
    a.ms < b.ms || (a.ms == b.ms && a.seq_ < b.seq_)
  }

  /** As Redis compares ids: by milliseconds, and then by sequence number. */
  lemma LessIff(a: Id, b: Id)
    ensures Less(a, b) <==> a.ms * 0x1_0000_0000_0000_0000 + a.seq_ < b.ms * 0x1_0000_0000_0000_0000 + b.seq_
  {
  }

  function IdText(id: Id): string {
    Print(id.ms) + ['-'] + Print(id.seq_)
  }

  function Dash(s: string): (r: Option<nat>)
    ensures r.None? ==> '-' !in s
    ensures r.Some? ==> r.value < |s| && s[r.value] == '-' && '-' !in s[..r.value]
  {
    if s == "" then None
    else if s[0] == '-' then Some(0)
    else
      var r := Dash(s[1..]);
      assert s == [s[0]] + s[1..];
      if r.None? then None
      else
        assert s[..r.value + 1] == [s[0]] + s[1..][..r.value];
        Some(r.value + 1)
  }

  /** How Redis reads the id of a range; a missing sequence number is zero. */
  function ReadId(text: string): Option<Id> {
    var dash := Dash(text);
    var ms := ParseUint(if dash.None? then text else text[..dash.value]);
    var n := if dash.None? then Some(0 as uint64) else ParseUint(text[dash.value + 1..]);
    if ms.Some? && n.Some? then Some(Id(ms.value, n.value)) else None
  }

  lemma DashOfIdText(id: Id)
    ensures Dash(IdText(id)) == Some(|Print(id.ms)|)
  {
    var ms, text := Print(id.ms), IdText(id);
    assert text[|ms|] == '-';
    assert forall i | 0 <= i < |ms| :: text[i] == ms[i];
    assert forall j | |ms| < j <= |text| :: text[..j][|ms|] == '-';
  }

  /** An id survives being printed and read back. */
  lemma ReadInvertsIdText(id: Id)
    ensures ReadId(IdText(id)) == Some(id) && Trimmed(IdText(id)) && IdText(id) != ""
  {
    DashOfIdText(id);
    var ms, text := Print(id.ms), IdText(id);
    assert text[..|ms|] == ms && text[|ms| + 1..] == Print(id.seq_);
    ParseUintInvertsPrint(id.ms);
    ParseUintInvertsPrint(id.seq_);
    assert IsDigit(text[0]) && IsDigit(text[|text| - 1]);
  }

  // ----- the stream of a channel -----

  /** The stored fields of an event; JSON is taken as an injective codec of them. */
  datatype Body = Body(channel: string, name: string, data: string, subject: nat, retryMs: int)

  /** `body` is None when the stored text cannot be decoded. */
  datatype Entry = Entry(id: Id, body: Option<Body>)

  datatype Event = Event(id: string, body: Body)

  type Stream = seq<Entry>

  ghost predicate Ordered(s: Stream) {
    forall i, j | 0 <= i < j < |s| :: Less(s[i].id, s[j].id)
  }

  /** The entries whose ids come after `last`. */
  function Rest(s: Stream, last: Id): Stream {
    if s == [] || Less(last, s[0].id) then s else Rest(s[1..], last)
  }

  function Take(s: Stream, limit: nat): Stream {
    if |s| <= limit then s else s[..limit]
  }

  /** The events of the entries that can be decoded. */
  function Good(s: Stream): seq<Event> {
    if s == [] then []
    else Good(s[..|s| - 1]) + if s[|s| - 1].body.Some? then [Event(IdText(s[|s| - 1].id), s[|s| - 1].body.value)] else []
  }

  lemma {:induction false} GoodSplit(s: Stream, t: Stream)
    ensures Good(s + t) == Good(s) + Good(t)
    decreases |t|
  {
    if t == [] {
      assert s + t == s;
    } else {
      assert (s + t)[..|s + t| - 1] == s + t[..|t| - 1];
      GoodSplit(s, t[..|t| - 1]);
    }
  }

  /** How many entries come no later than `last`. */
  function Position(s: Stream, last: Id): (n: nat)
    ensures n <= |s| && Rest(s, last) == s[n..]
  {
    if s == [] || Less(last, s[0].id) then 0 else 1 + Position(s[1..], last)
  }

  lemma {:induction false} PositionIs(s: Stream, last: Id, n: nat)
    requires Ordered(s) && n <= |s|
    requires forall i | 0 <= i < n :: !Less(last, s[i].id)
    requires n < |s| ==> Less(last, s[n].id)
    ensures Position(s, last) == n
  {
    if n > 0 {
      PositionIs(s[1..], last, n - 1);
    }
  }

  lemma {:induction false} PositionSplits(s: Stream, last: Id)
    requires Ordered(s)
    ensures forall i | 0 <= i < Position(s, last) :: !Less(last, s[i].id)
    ensures forall i | Position(s, last) <= i < |s| :: Less(last, s[i].id)
  {
    if s != [] && !Less(last, s[0].id) {
      PositionSplits(s[1..], last);
      forall i | 0 <= i < |s|
        ensures i < Position(s, last) ==> !Less(last, s[i].id)
        ensures i >= Position(s, last) ==> Less(last, s[i].id)
      {
        if i > 0 {
          assert s[i] == s[1..][i - 1];
        }
      }
    }
  }

  /** Later entries do not move a position, when they come after `last`. */
  lemma PositionOfLonger(s: Stream, t: Stream, last: Id)
    requires Ordered(s + t) && (t != [] ==> Less(last, t[0].id))
    ensures Position(s + t, last) == Position(s, last)
  {
    assert forall i | 0 <= i < |s| :: (s + t)[i] == s[i];
    PositionSplits(s, last);
    assert t != [] ==> (s + t)[|s|] == t[0];
    PositionIs(s + t, last, Position(s, last));
  }

  // ----- paging -----

  function Page(s: Stream, last: Id, limit: nat): seq<Event> {
    Good(Take(Rest(s, last), limit))
  }

  /** One past the last decodable entry of a page that starts at `n`; `n` itself when there is none. */
  function PageEnd(s: Stream, n: nat, m: nat): (e: nat)
    requires n <= m <= |s|
    ensures n <= e <= m
    ensures forall i | e <= i < m :: s[i].body.None?
    ensures e > n ==> s[e - 1].body.Some?
    decreases m
  {
    if m == n then n else if s[m - 1].body.Some? then m else PageEnd(s, n, m - 1)
  }

  lemma {:induction false} NoneGood(s: Stream)
    ensures Good(s) == [] <==> forall i | 0 <= i < |s| :: s[i].body.None?
  {
    if s != [] {
      NoneGood(s[..|s| - 1]);
    }
  }

  function Limit(n: nat, limit: nat, size: nat): nat
    requires n <= size
  {
    if size - n <= limit then size else n + limit
  }

  lemma GoodSlices(s: Stream, i: nat, j: nat, k: nat)
    requires i <= j <= k <= |s|
    ensures Good(s[i..k]) == Good(s[i..j]) + Good(s[j..k])
  {
    assert s[i..k] == s[i..j] + s[j..k];
    GoodSplit(s[i..j], s[j..k]);
  }

  lemma GoodUpToPageEnd(s: Stream, n: nat, m: nat)
    requires n <= m <= |s|
    ensures Good(s[n..m]) == Good(s[n..PageEnd(s, n, m)])
  {
    var e := PageEnd(s, n, m);
    GoodSlices(s, n, e, m);
    NoneGood(s[e..m]);
  }

  lemma TakeIsSlice(s: Stream, n: nat, limit: nat)
    requires n <= |s|
    ensures Take(s[n..], limit) == s[n..Limit(n, limit, |s|)]
  {
  }

  /** A page holds exactly the decodable entries up to its end. */
  lemma PageIsSlice(s: Stream, last: Id, limit: nat)
    ensures var n := Position(s, last);
            Page(s, last, limit) == Good(s[n..PageEnd(s, n, Limit(n, limit, |s|))])
  {
    var n := Position(s, last);
    TakeIsSlice(s, n, limit);
    GoodUpToPageEnd(s, n, Limit(n, limit, |s|));
  }

  lemma PageEndsInEvent(s: Stream, n: nat, e: nat)
    requires n < e <= |s| && s[e - 1].body.Some?
    ensures Good(s[n..e]) != [] && Good(s[n..e])[|Good(s[n..e])| - 1].id == IdText(s[e - 1].id)
  {
    assert s[n..e] == s[n..e - 1] + [s[e - 1]];
    assert s[n..e][..|s[n..e]| - 1] == s[n..e - 1];
  }

  lemma PositionOfEntry(s: Stream, e: nat)
    requires Ordered(s) && 0 < e <= |s|
    ensures Position(s, s[e - 1].id) == e
  {
    var last := s[e - 1].id;
    forall i | 0 <= i < e
      ensures !Less(last, s[i].id)
    {
      if i < e - 1 {
        assert Less(s[i].id, last);
      }
    }
    PositionIs(s, last, e);
  }

  // ----- blocks of undecodable entries -----

  /** `limit` entries in a row that cannot be decoded. */
  predicate Block(s: Stream, i: nat, limit: nat) {
    i + limit <= |s| && forall k | i <= k < i + limit :: s[k].body.None?
  }

  lemma NoneGoodSlice(s: Stream, i: nat, j: nat)
    requires i <= j <= |s|
    ensures Good(s[i..j]) == [] <==> forall k | i <= k < j :: s[k].body.None?
  {
    NoneGood(s[i..j]);
    assert forall k | i <= k < j :: s[i..j][k - i] == s[k];
    assert forall k | 0 <= k < j - i :: s[i..j][k] == s[i + k];
  }

  /** A page is empty exactly when no decodable entry is left, or a whole page of undecodable ones comes first. */
  lemma EmptyPageIff(s: Stream, last: Id, limit: nat)
    ensures var n := Position(s, last);
            Page(s, last, limit) == [] <==> Block(s, n, limit) || Good(s[n..|s|]) == []
  {
    var n := Position(s, last);
    var m := Limit(n, limit, |s|);
    TakeIsSlice(s, n, limit);
    NoneGoodSlice(s, n, m);
    NoneGoodSlice(s, n, |s|);
  }

  ghost predicate NoBlock(s: Stream, limit: nat) {
    forall i: nat :: !Block(s, i, limit)
  }

  predicate Decodes(s: Stream) {
    forall i | 0 <= i < |s| :: s[i].body.Some?
  }

  lemma DecodesHasNoBlock(s: Stream, limit: nat)
    requires limit > 0 && Decodes(s)
    ensures NoBlock(s, limit)
  {
    forall i: nat
      ensures !Block(s, i, limit)
    {
      if i < |s| {
        assert s[i].body.Some?;
      }
    }
  }
}
