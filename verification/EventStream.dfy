/**
 The event-stream text format: the frames the SSE writer prints, and an interpreter
 written from sections 9.2.5 and 9.2.6 of the HTML Standard that reads them back.
 Text is a sequence of decoded characters.
 */
module EventStream {
  import opened Wrappers
  import opened Text

  datatype StreamEvent = StreamEvent(eventId: string, eventName: string, data: string, retryMs: int64)

  // ----- printing -----

  /** bytes.ReplaceAll(s, "\r", "") */
  function WithoutCR(s: string): (r: string)
    ensures '\r' !in r
    ensures '\r' !in s ==> r == s
  {
    if s == "" then ""
    else if s[|s| - 1] == '\r' then WithoutCR(s[..|s| - 1])
    else WithoutCR(s[..|s| - 1]) + [s[|s| - 1]]
  }

  // ----- what dropping the carriage returns means -----

  /** `r` is what stands at the positions `ps` of `s`: those, in order, that hold no carriage return. */
  ghost predicate Picks(s: string, ps: seq<nat>, r: string) {
    && |ps| == |r|
    && (forall i, j | 0 <= i < j < |ps| :: ps[i] < ps[j])
    && (forall i | 0 <= i < |ps| :: ps[i] < |s| && s[ps[i]] != '\r' && r[i] == s[ps[i]])
    && (forall p: nat | p < |s| && s[p] != '\r' :: p in ps)
  }

  /** `r` is `s` without its carriage returns. */
  ghost predicate DropsCR(s: string, r: string) {
    exists ps :: Picks(s, ps, r)
  }

  lemma PicksOneMore(s: string, c: char, ps: seq<nat>, r: string)
    requires Picks(s, ps, r)
    ensures if c == '\r' then Picks(s + [c], ps, r) else Picks(s + [c], ps + [|s|], r + [c])
  {
    assert forall p | 0 <= p < |s| :: (s + [c])[p] == s[p];
    assert (ps + [|s|])[|ps|] == |s|;
    assert forall p | p in ps :: p in ps + [|s|];
  }

  lemma {:induction false} WithoutCRPicks(s: string) returns (ps: seq<nat>)
    ensures Picks(s, ps, WithoutCR(s))
  {
    ps := [];
    if s != "" {
      var before, c := s[..|s| - 1], s[|s| - 1];
      ps := WithoutCRPicks(before);
      PicksOneMore(before, c, ps, WithoutCR(before));
      assert before + [c] == s;
      if c != '\r' {
        ps := ps + [|before|];
      }
    }
  }

  lemma SomeIsIn(ps: seq<nat>)
    requires ps != []
    ensures exists p :: p in ps
  {
    assert ps[0] in ps;
  }

  lemma {:induction false} AscendingListsAgree(ps: seq<nat>, qs: seq<nat>)
    requires forall i, j | 0 <= i < j < |ps| :: ps[i] < ps[j]
    requires forall i, j | 0 <= i < j < |qs| :: qs[i] < qs[j]
    requires forall p :: p in ps <==> p in qs
    ensures ps == qs
  {
    if ps == [] {
      if qs != [] {
        SomeIsIn(qs);
      }
    } else {
      SomeIsIn(ps);
      var m, n := |ps| - 1, |qs| - 1;
      assert ps[m] in qs && qs[n] in ps;
      assert ps[m] == qs[n];
      forall p
        ensures p in ps[..m] <==> p in qs[..n]
      {
        assert p in ps[..m] <==> p in ps && p != ps[m];
        assert p in qs[..n] <==> p in qs && p != qs[n];
      }
      AscendingListsAgree(ps[..m], qs[..n]);
    }
  }

  lemma SamePicks(s: string, ps: seq<nat>, r: string, qs: seq<nat>, t: string)
    requires Picks(s, ps, r) && Picks(s, qs, t)
    ensures r == t
  {
    AscendingListsAgree(ps, qs);
  }

  /** There is one such text, and it is what is printed. */
  lemma WithoutCRIff(s: string, r: string)
    ensures r == WithoutCR(s) <==> DropsCR(s, r)
  {
    var qs := WithoutCRPicks(s);
    if DropsCR(s, r) {
      var ps :| Picks(s, ps, r);
      SamePicks(s, ps, r, qs, WithoutCR(s));
    }
  }

  /** bytes.Split(s, "\n"): always at least one piece. */
  function SplitLines(s: string): (lines: seq<string>)
    ensures lines != []
    ensures forall i | 0 <= i < |lines| :: '\n' !in lines[i] && ('\r' !in s ==> '\r' !in lines[i])
  {
    if s == "" then [""]
    else
      var rest := SplitLines(s[1..]);
      if s[0] == '\n' then [""] + rest else [[s[0]] + rest[0]] + rest[1..]
  }

  function FieldLine(field: string, value: string): string {
    field + ": " + value
  }

  /** The retry, id and event lines, in that order, each only when it says something. */
  function HeaderLines(e: StreamEvent): seq<string> {
    (if e.retryMs > 0 then [FieldLine("retry", Print(e.retryMs))] else [])
    + (if e.eventId != "" then [FieldLine("id", e.eventId)] else [])
    + (if e.eventName != "" then [FieldLine("event", e.eventName)] else [])
  }

  /** The lines of an event's frame; the last one is the blank line that ends it. */
  function FrameLines(e: StreamEvent): seq<string> {
    HeaderLines(e) + DataLines(SplitLines(WithoutCR(e.data))) + [""]
  }

  function DataLines(lines: seq<string>): seq<string> {
    if lines == [] then [] else [FieldLine("data", lines[0])] + DataLines(lines[1..])
  }

  /** Lines as text, each ended by a line feed. */
  function Unlines(lines: seq<string>): string {
    if lines == [] then "" else lines[0] + "\n" + Unlines(lines[1..])
  }

  lemma {:induction false} UnlinesAppend(a: seq<string>, b: seq<string>)
    ensures Unlines(a + b) == Unlines(a) + Unlines(b)
  {
    if a == [] {
      assert a + b == b;
    } else {
      assert (a + b)[1..] == a[1..] + b;
      UnlinesAppend(a[1..], b);
    }
  }

  lemma AppendLine(lines: seq<string>, line: string)
    ensures Unlines(lines + [line]) == Unlines(lines) + (line + "\n")
  {
    UnlinesAppend(lines, [line]);
    assert Unlines([line]) == line + "\n";
  }

  lemma {:induction false} AppendDataLine(lines: seq<string>, line: string)
    ensures DataLines(lines + [line]) == DataLines(lines) + [FieldLine("data", line)]
  {
    if lines == [] {
      assert lines + [line] == [line] && DataLines([line][1..]) == [];
    } else {
      assert (lines + [line])[1..] == lines[1..] + [line];
      AppendDataLine(lines[1..], line);
    }
  }

  lemma DataLinesUpTo(lines: seq<string>, i: nat)
    requires i < |lines|
    ensures DataLines(lines[..i + 1]) == DataLines(lines[..i]) + [FieldLine("data", lines[i])]
  {
    assert lines[..i + 1] == lines[..i] + [lines[i]];
    AppendDataLine(lines[..i], lines[i]);
  }

  /** The first half of EncodeEvent. */
  method EncodeHeader(e: StreamEvent) returns (buf: string)
    ensures buf == Unlines(HeaderLines(e))
  {
    ghost var printed: seq<string> := [];
    buf := "";
    if e.retryMs > 0 {
      var line := FieldLine("retry", Print(e.retryMs));
      AppendLine(printed, line);
      buf, printed := buf + (line + "\n"), printed + [line];
    }
    if e.eventId != "" {
      var line := FieldLine("id", e.eventId);
      AppendLine(printed, line);
      buf, printed := buf + (line + "\n"), printed + [line];
    }
    if e.eventName != "" {
      var line := FieldLine("event", e.eventName);
      AppendLine(printed, line);
      buf, printed := buf + (line + "\n"), printed + [line];
    }
    assert printed == HeaderLines(e);
  }

  /** The loop over the lines of the data. */
  method EncodeData(lines: seq<string>) returns (buf: string)
    ensures buf == Unlines(DataLines(lines))
  {
    buf := "";
    for i := 0 to |lines|
      invariant buf == Unlines(DataLines(lines[..i]))
    {
      var line := FieldLine("data", lines[i]);
      DataLinesUpTo(lines, i);
      AppendLine(DataLines(lines[..i]), line);
      buf := buf + (line + "\n");
    }
    assert lines[..|lines|] == lines;
  }

  /** EncodeEvent, appending to a buffer; a nil event prints nothing. */
  method EncodeEvent(evt: Option<StreamEvent>) returns (buf: string)
    ensures buf == if evt.None? then "" else Unlines(FrameLines(evt.value))
  {
    if evt.None? {
      return "";
    }
    var header := EncodeHeader(evt.value);
    var data := EncodeData(SplitLines(WithoutCR(evt.value.data)));
    buf := header + data + "\n";
    UnlinesOfThree(HeaderLines(evt.value), DataLines(SplitLines(WithoutCR(evt.value.data))));
  }

  lemma UnlinesOfThree(header: seq<string>, data: seq<string>)
    ensures Unlines(header + data + [""]) == Unlines(header) + Unlines(data) + "\n"
  {
    UnlinesAppend(header, data);
    AppendLine(header + data, "");
  }

  // ----- the HTML Standard's interpretation -----

  datatype Dispatched = Dispatched(eventType: string, data: string, lastEventId: string)

  datatype Interpreter = Interpreter(
    data: string, eventType: string, lastEventId: string, reconnectionTime: Option<nat>, out: seq<Dispatched>)

  const FRESH := Interpreter("", "", "", None, [])

  predicate IsLineEnd(c: char) {
    c == '\r' || c == '\n'
  }

  predicate OneLine(s: string) {
    forall i | 0 <= i < |s| :: !IsLineEnd(s[i])
  }

  function LineEnd(s: string): (n: nat)
    ensures n <= |s| && OneLine(s[..n])
    ensures n < |s| ==> IsLineEnd(s[n])
  {
    if s == "" || IsLineEnd(s[0]) then 0 else 1 + LineEnd(s[1..])
  }

  function IndexOf(s: string, c: char): (n: nat)
    ensures n <= |s| && c !in s[..n]
    ensures n < |s| ==> s[n] == c
  {
    if s == "" || s[0] == c then 0 else 1 + IndexOf(s[1..], c)
  }

  /** "Dispatch the event" of section 9.2.6. */
  function Dispatch(p: Interpreter): Interpreter {
    if p.data == "" then p.(eventType := "")
    else
      var data := if p.data[|p.data| - 1] == '\n' then p.data[..|p.data| - 1] else p.data;
      var eventType := if p.eventType != "" then p.eventType else "message";
      p.(data := "", eventType := "", out := p.out + [Dispatched(eventType, data, p.lastEventId)])
  }

  /** "Process the field" of section 9.2.6. */
  function ProcessField(p: Interpreter, field: string, value: string): Interpreter {
    if field == "event" then p.(eventType := value)
    else if field == "data" then p.(data := p.data + value + "\n")
    else if field == "id" then (if '\0' in value then p else p.(lastEventId := value))
    else if field == "retry" then (if value != "" && AllDigits(value) then p.(reconnectionTime := Some(Value(value))) else p)
    else p
  }

  function ProcessLine(p: Interpreter, line: string): Interpreter {
    if line == "" then Dispatch(p)
    else
      var colon := IndexOf(line, ':');
      if colon == 0 then p
      else if colon == |line| then ProcessField(p, line, "")
      else
        var value := line[colon + 1..];
        ProcessField(p, line[..colon], if value != "" && value[0] == ' ' then value[1..] else value)
  }

  /** Lines end at CR LF, LF or CR; an unfinished last line is discarded. */
  function Feed(p: Interpreter, s: string): Interpreter
    decreases |s|
  {
    var n := LineEnd(s);
    if n == |s| then p
    else
      var width := if s[n] == '\r' && n + 1 < |s| && s[n + 1] == '\n' then 2 else 1;
      Feed(ProcessLine(p, s[..n]), s[n + width..])
  }

  /** A whole stream: one leading byte order mark is ignored. */
  function Interpret(s: string): Interpreter {
    Feed(FRESH, if s != "" && s[0] == '\U{FEFF}' then s[1..] else s)
  }

  // ----- reading lines back -----

  function ProcessAll(p: Interpreter, lines: seq<string>): Interpreter
    decreases |lines|
  {
    if lines == [] then p else ProcessAll(ProcessLine(p, lines[0]), lines[1..])
  }

  lemma {:induction false} LineEndOf(line: string, rest: string)
    requires OneLine(line)
    ensures LineEnd(line + "\n" + rest) == |line|
  {
    if line != "" {
      assert (line + "\n" + rest)[1..] == line[1..] + "\n" + rest;
      LineEndOf(line[1..], rest);
    }
  }

  lemma {:induction false} FeedLines(p: Interpreter, lines: seq<string>, rest: string)
    requires forall i | 0 <= i < |lines| :: OneLine(lines[i])
    ensures Feed(p, Unlines(lines) + rest) == Feed(ProcessAll(p, lines), rest)
    decreases |lines|
  {
    if lines == [] {
      assert Unlines(lines) + rest == rest;
    } else {
      var tail := Unlines(lines[1..]) + rest;
      var s := lines[0] + "\n" + tail;
      assert Unlines(lines) + rest == s;
      LineEndOf(lines[0], tail);
      assert s[..|lines[0]|] == lines[0] && s[|lines[0]| + 1..] == tail;
      FeedLines(ProcessLine(p, lines[0]), lines[1..], rest);
    }
  }

  lemma {:induction false} ProcessAllAppend(p: Interpreter, a: seq<string>, b: seq<string>)
    ensures ProcessAll(p, a + b) == ProcessAll(ProcessAll(p, a), b)
    decreases |a|
  {
    if a == [] {
      assert a + b == b;
    } else {
      assert (a + b)[1..] == a[1..] + b;
      ProcessAllAppend(ProcessLine(p, a[0]), a[1..], b);
    }
  }

  /** A "field: value" line whose field holds no colon hands the value over unchanged. */
  lemma ProcessFieldLine(p: Interpreter, field: string, value: string)
    requires field != "" && ':' !in field
    ensures ProcessLine(p, FieldLine(field, value)) == ProcessField(p, field, value)
  {
    var line := FieldLine(field, value);
    ColonAfter(field, " " + value);
    assert line == field + ":" + (" " + value);
    assert line[..|field|] == field && line[|field| + 1..] == " " + value;
  }

  lemma {:induction false} ColonAfter(field: string, rest: string)
    requires ':' !in field
    ensures IndexOf(field + ":" + rest, ':') == |field|
  {
    if field != "" {
      assert (field + ":" + rest)[1..] == field[1..] + ":" + rest;
      assert forall c | c in field[1..] :: c in field;
      ColonAfter(field[1..], rest);
    }
  }

  lemma {:induction false} SplitThenJoin(s: string)
    ensures Unlines(SplitLines(s)) == s + "\n"
  {
    if s != "" {
      SplitThenJoin(s[1..]);
      var rest := SplitLines(s[1..]);
      assert s == [s[0]] + s[1..];
      if s[0] == '\n' {
        assert ([""] + rest)[1..] == rest;
      } else {
        var lines := [[s[0]] + rest[0]] + rest[1..];
        assert lines[1..] == rest[1..];
        assert Unlines(lines) == [s[0]] + Unlines(rest);
      }
    }
  }

  lemma ProcessOne(p: Interpreter, line: string)
    ensures ProcessAll(p, [line]) == ProcessLine(p, line)
  {
    assert [line][1..] == [];
    assert ProcessAll(ProcessLine(p, line), []) == ProcessLine(p, line);
  }

  lemma {:induction false} ProcessDataLines(p: Interpreter, lines: seq<string>)
    ensures ProcessAll(p, DataLines(lines)) == p.(data := p.data + Unlines(lines))
    decreases |lines|
  {
    if lines == [] {
      assert p.data + "" == p.data;
    } else {
      var first, rest := lines[0], lines[1..];
      var all := DataLines(lines);
      assert all[0] == FieldLine("data", first) && all[1..] == DataLines(rest);
      ProcessFieldLine(p, "data", first);
      var q := p.(data := p.data + first + "\n");
      ProcessDataLines(q, rest);
      assert ProcessAll(p, all) == ProcessAll(q, DataLines(rest));
      ConcatAssociates(p.data, first, "\n");
      ConcatAssociates(p.data, first + "\n", Unlines(rest));
      assert q.data + Unlines(rest) == p.data + Unlines(lines);
    }
  }

  lemma ConcatAssociates<T>(a: seq<T>, b: seq<T>, c: seq<T>)
    ensures (a + b) + c == a + (b + c)
  {
  }

  // ----- frames and what a client should see -----

  datatype Frame = Event(event: StreamEvent) | Heartbeat

  const KEEPALIVE := ": keepalive\n\n"

  function FrameText(f: Frame): string {
    match f
    case Event(e) => Unlines(FrameLines(e))
    case Heartbeat => KEEPALIVE
  }

  function Wire(frames: seq<Frame>): string {
    if frames == [] then "" else FrameText(frames[0]) + Wire(frames[1..])
  }

  /** The id and name of an event are printed as they are, so they must fit on a line, and the id must hold no NUL. */
  predicate Clean(e: StreamEvent) {
    OneLine(e.eventId) && OneLine(e.eventName) && '\0' !in e.eventId
  }

  predicate AllClean(frames: seq<Frame>) {
    forall i | 0 <= i < |frames| && frames[i].Event? :: Clean(frames[i].event)
  }

  /** One dispatch per event, in order, and none for heartbeats. An event without id repeats the last one. */
  function Expected(frames: seq<Frame>, lastEventId: string): seq<Dispatched> {
    if frames == [] then []
    else
      match frames[0]
      case Heartbeat => Expected(frames[1..], lastEventId)
      case Event(e) => [Seen(e, lastEventId)] + Expected(frames[1..], IdAfter(e, lastEventId))
  }

  /** What a client should see of one event: its type, its data without the carriage returns, and the last id. */
  ghost predicate IsSeen(d: Dispatched, e: StreamEvent, lastEventId: string) {
    && d.eventType == (if e.eventName != "" then e.eventName else "message")
    && DropsCR(e.data, d.data)
    && d.lastEventId == (if e.eventId != "" then e.eventId else lastEventId)
  }

  /** One dispatch per event, in order, and none for heartbeats. */
  ghost predicate AreSeen(out: seq<Dispatched>, frames: seq<Frame>, lastEventId: string)
    decreases |frames|
  {
    if frames == [] then out == []
    else
      match frames[0]
      case Heartbeat => AreSeen(out, frames[1..], lastEventId)
      case Event(e) =>
        out != [] && IsSeen(out[0], e, lastEventId) && AreSeen(out[1..], frames[1..], out[0].lastEventId)
  }

  lemma {:induction false} AreSeenIff(out: seq<Dispatched>, frames: seq<Frame>, lastEventId: string)
    ensures AreSeen(out, frames, lastEventId) <==> out == Expected(frames, lastEventId)
    decreases |frames|
  {
    if frames != [] {
      match frames[0]
      case Heartbeat => AreSeenIff(out, frames[1..], lastEventId);
      case Event(e) =>
        if out != [] {
          WithoutCRIff(e.data, out[0].data);
          AreSeenIff(out[1..], frames[1..], IdAfter(e, lastEventId));
          assert out == [out[0]] + out[1..];
        }
    }
  }

  function ExpectedRetry(frames: seq<Frame>, retry: Option<nat>): Option<nat> {
    if frames == [] then retry
    else ExpectedRetry(frames[1..], if frames[0].Event? then RetryAfter(frames[0].event, retry) else retry)
  }

  predicate BetweenEvents(p: Interpreter) {
    p.data == "" && p.eventType == ""
  }

  function IdAfter(e: StreamEvent, lastEventId: string): string {
    if e.eventId != "" then e.eventId else lastEventId
  }

  function RetryAfter(e: StreamEvent, retry: Option<nat>): Option<nat> {
    if e.retryMs > 0 then Some(e.retryMs) else retry
  }

  function Seen(e: StreamEvent, lastEventId: string): Dispatched {
    Dispatched(if e.eventName != "" then e.eventName else "message", WithoutCR(e.data), IdAfter(e, lastEventId))
  }

  function HeaderSeen(p: Interpreter, e: StreamEvent): Interpreter {
    Interpreter("", e.eventName, IdAfter(e, p.lastEventId), RetryAfter(e, p.reconnectionTime), p.out)
  }

  lemma ProcessRetry(p: Interpreter, e: StreamEvent)
    ensures ProcessAll(p, if e.retryMs > 0 then [FieldLine("retry", Print(e.retryMs))] else []) ==
            p.(reconnectionTime := RetryAfter(e, p.reconnectionTime))
  {
    if e.retryMs > 0 {
      ProcessOne(p, FieldLine("retry", Print(e.retryMs)));
      ProcessFieldLine(p, "retry", Print(e.retryMs));
      ValueOfPrint(e.retryMs);
    }
  }

  lemma ProcessId(p: Interpreter, e: StreamEvent)
    requires Clean(e)
    ensures ProcessAll(p, if e.eventId != "" then [FieldLine("id", e.eventId)] else []) ==
            p.(lastEventId := IdAfter(e, p.lastEventId))
  {
    if e.eventId != "" {
      ProcessOne(p, FieldLine("id", e.eventId));
      ProcessFieldLine(p, "id", e.eventId);
    }
  }

  lemma ProcessName(p: Interpreter, e: StreamEvent)
    requires p.eventType == ""
    ensures ProcessAll(p, if e.eventName != "" then [FieldLine("event", e.eventName)] else []) == p.(eventType := e.eventName)
  {
    if e.eventName != "" {
      ProcessOne(p, FieldLine("event", e.eventName));
      ProcessFieldLine(p, "event", e.eventName);
    }
  }

  lemma ProcessHeader(p: Interpreter, e: StreamEvent)
    requires BetweenEvents(p) && Clean(e)
    ensures ProcessAll(p, HeaderLines(e)) == HeaderSeen(p, e)
  {
    var retryLines := if e.retryMs > 0 then [FieldLine("retry", Print(e.retryMs))] else [];
    var idLines := if e.eventId != "" then [FieldLine("id", e.eventId)] else [];
    var nameLines := if e.eventName != "" then [FieldLine("event", e.eventName)] else [];
    ProcessAllAppend(p, retryLines + idLines, nameLines);
    ProcessAllAppend(p, retryLines, idLines);
    ProcessRetry(p, e);
    var p1 := ProcessAll(p, retryLines);
    ProcessId(p1, e);
    ProcessName(ProcessAll(p1, idLines), e);
  }

  lemma ProcessFrame(p: Interpreter, e: StreamEvent)
    requires BetweenEvents(p) && Clean(e)
    ensures ProcessAll(p, FrameLines(e)) ==
            Interpreter("", "", IdAfter(e, p.lastEventId), RetryAfter(e, p.reconnectionTime),
                        p.out + [Seen(e, p.lastEventId)])
  {
    var data := WithoutCR(e.data);
    var body := DataLines(SplitLines(data));
    ProcessHeader(p, e);
    var q := ProcessAll(p, HeaderLines(e));
    ProcessDataLines(q, SplitLines(data));
    SplitThenJoin(data);
    var r := ProcessAll(q, body);
    assert r == q.(data := data + "\n") by {
      assert "" + (data + "\n") == data + "\n";
    }
    ProcessAllAppend(p, HeaderLines(e), body);
    ProcessAllAppend(p, HeaderLines(e) + body, [""]);
    ProcessOne(r, "");
    assert (data + "\n")[..|data|] == data;
  }

  lemma FieldLineIsOneLine(field: string, value: string)
    requires OneLine(field) && OneLine(value)
    ensures OneLine(FieldLine(field, value))
  {
    var line := FieldLine(field, value);
    assert forall i | 0 <= i < |line| ::
        line[i] == if i < |field| then field[i] else if i < |field| + 2 then ": "[i - |field|] else value[i - |field| - 2];
  }

  lemma FrameLinesAreLines(e: StreamEvent)
    requires Clean(e)
    ensures forall i | 0 <= i < |FrameLines(e)| :: OneLine(FrameLines(e)[i])
  {
    if e.retryMs > 0 {
      FieldLineIsOneLine("retry", Print(e.retryMs));
    }
    FieldLineIsOneLine("id", e.eventId);
    FieldLineIsOneLine("event", e.eventName);
    var lines := SplitLines(WithoutCR(e.data));
    forall i | 0 <= i < |lines|
      ensures OneLine(lines[i])
    {
      assert '\n' !in lines[i] && '\r' !in lines[i];
    }
    DataLinesAreLines(lines);
  }

  lemma {:induction false} DataLinesAreLines(lines: seq<string>)
    requires forall i | 0 <= i < |lines| :: OneLine(lines[i])
    ensures forall i | 0 <= i < |DataLines(lines)| :: OneLine(DataLines(lines)[i])
  {
    if lines != [] {
      FieldLineIsOneLine("data", lines[0]);
      DataLinesAreLines(lines[1..]);
    }
  }

  lemma FeedHeartbeat(p: Interpreter, rest: string)
    requires BetweenEvents(p)
    ensures Feed(p, KEEPALIVE + rest) == Feed(p, rest)
  {
    var lines := [": keepalive", ""];
    assert lines[1..] == [""] && [""][1..] == [];
    assert Unlines([""]) == "\n";
    assert Unlines(lines) == KEEPALIVE;
    FeedLines(p, lines, rest);
    ProcessOne(ProcessLine(p, lines[0]), "");
  }

  lemma FeedEvent(p: Interpreter, e: StreamEvent, rest: string) returns (q: Interpreter)
    requires BetweenEvents(p) && Clean(e)
    ensures Feed(p, FrameText(Event(e)) + rest) == Feed(q, rest)
    ensures q == Interpreter("", "", IdAfter(e, p.lastEventId), RetryAfter(e, p.reconnectionTime),
                             p.out + [Seen(e, p.lastEventId)])
  {
    FrameLinesAreLines(e);
    FeedLines(p, FrameLines(e), rest);
    ProcessFrame(p, e);
    q := ProcessAll(p, FrameLines(e));
  }

  lemma {:induction false} FeedWire(p: Interpreter, frames: seq<Frame>)
    requires BetweenEvents(p) && AllClean(frames)
    ensures Feed(p, Wire(frames)).out == p.out + Expected(frames, p.lastEventId)
    ensures Feed(p, Wire(frames)).reconnectionTime == ExpectedRetry(frames, p.reconnectionTime)
    decreases |frames|
  {
    if frames == [] {
      assert p.out + [] == p.out;
    } else {
      var rest := frames[1..];
      assert AllClean(rest);
      assert Wire(frames) == FrameText(frames[0]) + Wire(rest);
      match frames[0] {
        case Heartbeat =>
          FeedHeartbeat(p, Wire(rest));
          FeedWire(p, rest);
        case Event(e) =>
          var q := FeedEvent(p, e, Wire(rest));
          FeedWire(q, rest);
          ConcatAssociates(p.out, [Seen(e, p.lastEventId)], Expected(rest, q.lastEventId));
      }
    }
  }

  // ----- what an interpreter can ever dispatch -----

  predicate CleanOutput(d: Dispatched) {
    OneLine(d.eventType) && OneLine(d.lastEventId) && '\0' !in d.lastEventId
  }

  predicate CleanState(p: Interpreter) {
    && OneLine(p.eventType) && OneLine(p.lastEventId) && '\0' !in p.lastEventId
    && forall i | 0 <= i < |p.out| :: CleanOutput(p.out[i])
  }

  lemma LineStaysClean(p: Interpreter, line: string)
    requires CleanState(p) && OneLine(line)
    ensures CleanState(ProcessLine(p, line))
  {
    if line != "" {
      var colon := IndexOf(line, ':');
      var value := if colon < |line| then line[colon + 1..] else "";
      assert OneLine(value);
      FieldStaysClean(p, line[..colon], value);
      if value != "" && value[0] == ' ' {
        FieldStaysClean(p, line[..colon], value[1..]);
      }
    }
  }

  lemma FieldStaysClean(p: Interpreter, field: string, value: string)
    requires CleanState(p) && OneLine(value)
    ensures CleanState(ProcessField(p, field, value))
  {
  }

  lemma {:induction false} FeedStaysClean(p: Interpreter, s: string)
    requires CleanState(p)
    ensures CleanState(Feed(p, s))
    decreases |s|
  {
    var n := LineEnd(s);
    if n < |s| {
      var width := if s[n] == '\r' && n + 1 < |s| && s[n + 1] == '\n' then 2 else 1;
      LineStaysClean(p, s[..n]);
      FeedStaysClean(ProcessLine(p, s[..n]), s[n + width..]);
    }
  }

  lemma {:induction false} DirtyExpectation(frames: seq<Frame>, lastEventId: string)
    requires !AllClean(frames)
    ensures exists i :: 0 <= i < |Expected(frames, lastEventId)| && !CleanOutput(Expected(frames, lastEventId)[i])
    decreases |frames|
  {
    var whole := Expected(frames, lastEventId);
    if frames[0].Event? && !Clean(frames[0].event) {
      assert !CleanOutput(whole[0]);
    } else {
      var k :| 0 <= k < |frames| && frames[k].Event? && !Clean(frames[k].event);
      assert frames[1..][k - 1] == frames[k];
      var id := if frames[0].Event? then IdAfter(frames[0].event, lastEventId) else lastEventId;
      DirtyExpectation(frames[1..], id);
      var rest := Expected(frames[1..], id);
      var i :| 0 <= i < |rest| && !CleanOutput(rest[i]);
      var shift := if frames[0].Event? then 1 else 0;
      assert whole[i + shift] == rest[i];
    }
  }

  lemma NoByteOrderMark(frames: seq<Frame>)
    ensures Interpret(Wire(frames)) == Feed(FRESH, Wire(frames))
  {
    if frames != [] {
      var text := FrameText(frames[0]);
      if frames[0].Event? {
        var lines := FrameLines(frames[0].event);
        assert text == lines[0] + "\n" + Unlines(lines[1..]);
        assert lines[0] != "" && lines[0][0] in "ried";
      }
      assert Wire(frames)[0] == text[0];
    }
  }

  // ----- main result -----

  /**
   For any interleaving of events and heartbeats, the standard's interpreter dispatches exactly
   those events, in order, with their data but for the carriage returns, exactly
   when every id and name is one line and no id holds a NUL.
   */
  lemma RoundTripIff(frames: seq<Frame>)
    ensures AreSeen(Interpret(Wire(frames)).out, frames, "") <==> AllClean(frames)
    ensures AllClean(frames) ==> Interpret(Wire(frames)).reconnectionTime == ExpectedRetry(frames, None)
  {
    AreSeenIff(Interpret(Wire(frames)).out, frames, "");
    NoByteOrderMark(frames);
    if AllClean(frames) {
      FeedWire(FRESH, frames);
    } else {
      FeedStaysClean(FRESH, Wire(frames));
      DirtyExpectation(frames, "");
    }
  }

  /** An id with a line feed in it adds a field of its own. */
  lemma LineFeedInIdInjects()
    ensures var e := StreamEvent("1\ndata: x", "", "", 0);
            !AreSeen(Interpret(Wire([Event(e)])).out, [Event(e)], "")
  {
    var e := StreamEvent("1\ndata: x", "", "", 0);
    assert IsLineEnd(e.eventId[1]);
    assert !Clean(e) && [Event(e)][0].event == e;
    RoundTripIff([Event(e)]);
  }
}
