/** HTTPStreamWriter: frames written one after another onto one response. */
module StreamWriter {
  import opened EventStream
  import opened Wrappers

  /** What the response does to one write: header flush, deadline, characters taken, final flush. */
  datatype Io = Io(headerFlush: bool, deadline: bool, taken: nat, flush: bool)

  /** What gets through of a text when only so many characters are taken. */
  function UpTo(text: string, taken: nat): string {
    if taken < |text| then text[..taken] else text
  }

  class HttpStreamWriter {
    var prepared: bool
    var started: bool
    var wire: string
    ghost var sent: seq<Frame>
    ghost var failed: bool

    /** Until a write fails, the response holds exactly the frames written so far. */
    ghost predicate Valid()
      reads this
    {
      && (started ==> prepared)
      && (!failed ==> wire == Wire(sent) && (sent != [] ==> started))
    }

    constructor ()
      ensures Valid() && wire == "" && sent == [] && !failed && !started && !prepared
    {
      prepared, started, wire, sent, failed := false, false, "", [], false;
    }

    method Payload(frame: Frame) returns (payload: string)
      ensures payload == FrameText(frame)
    {
      match frame {
        case Heartbeat => payload := KEEPALIVE;
        case Event(e) => payload := EncodeEvent(Some(e));
      }
    }

    method Write(frame: Frame, io: Io) returns (ok: bool)
      requires Valid()
      modifies this
      ensures Valid()
      ensures ok <==> (old(prepared) || io.headerFlush) && io.deadline && io.taken >= |FrameText(frame)| && io.flush
      ensures prepared && started == (ok || old(started)) && failed == (!ok || old(failed))
      ensures ok ==> wire == old(wire) + FrameText(frame) && sent == old(sent) + [frame]
      ensures !ok ==> sent == old(sent)
      ensures !ok ==>
                wire == old(wire) +
                  (if (old(prepared) || io.headerFlush) && io.deadline then UpTo(FrameText(frame), io.taken) else "")
    {
      if !prepared {
        prepared := true;
        if !io.headerFlush {
          failed := true;
          return false;
        }
      }
      if !io.deadline {
        failed := true;
        return false;
      }
      var payload := Payload(frame);
      if io.taken < |payload| {
        wire, failed := wire + payload[..io.taken], true;
        return false;
      }
      wire := wire + payload;
      if !io.flush {
        failed := true;
        return false;
      }
      WireAppend(sent, frame);
      started, sent := true, sent + [frame];
      return true;
    }
  }

  lemma {:induction false} WireAppend(frames: seq<Frame>, frame: Frame)
    ensures Wire(frames + [frame]) == Wire(frames) + FrameText(frame)
  {
    if frames == [] {
      assert frames + [frame] == [frame] && Wire([frame][1..]) == "";
    } else {
      assert (frames + [frame])[1..] == frames[1..] + [frame];
      WireAppend(frames[1..], frame);
    }
  }

  /** As long as no write failed, a client reads back exactly the events written, heartbeats leave no trace. */
  lemma ClientReadsWhatWasSent(w: HttpStreamWriter)
    requires w.Valid() && !w.failed
    ensures AreSeen(Interpret(w.wire).out, w.sent, "") <==> AllClean(w.sent)
  {
    RoundTripIff(w.sent);
  }
}
