/** A connection's byte stream as a list of frames: reading undoes writing, frame by frame. */
module FrameStream {
  import opened Wrappers
  import opened Words
  import opened Buffers
  import opened Streams
  import opened Frames
  import opened FrameBodies
  import opened SettingsFrames

  /** A frame as its sender asks for it. */
  datatype Frame =
    | DataFrameOf(streamId: u32, pad: Option<u8>, data: seq<u8>, isEnd: bool)
    | HeadersFrameOf(streamId: u32, pad: Option<u8>, priority: Option<Priority>, end: u8, data: seq<u8>)
    | ContinuationFrameOf(streamId: u32, isEnd: bool, data: seq<u8>)
    | SettingsFrameOf(settings: SettingsFrame)

  /** A frame as its receiver gets it: the header, and the body that its reader makes. */
  datatype Received = BodyOf(header: FrameHeader, body: Body) | SettingsOf(header: FrameHeader, settings: SettingsFrame)

  function Print(f: Frame): seq<u8> {
    match f
    case DataFrameOf(id, pad, data, isEnd) => PrintData(id, pad, data, isEnd)
    case HeadersFrameOf(id, pad, priority, end, data) => PrintHeaders(id, pad, priority, end, data)
    case ContinuationFrameOf(id, isEnd, data) => PrintContinuation(id, isEnd, data)
    case SettingsFrameOf(settings) => PrintSettings(settings)
  }

  /** The bytes after the frame header. */
  function BodyBytes(f: Frame): seq<u8> {
    match f
    case DataFrameOf(_, pad, data, _) => Padded(pad, data)
    case HeadersFrameOf(_, pad, priority, _, data) => Padded(pad, PrintPriority(priority) + data)
    case ContinuationFrameOf(_, _, data) => data
    case SettingsFrameOf(Ack) => []
    case SettingsFrameOf(SettingsBody(s)) => Differences(s, 0)
  }

  /** Section 4.1 and 6 of RFC 9113: a real stream, a length the peer takes, and no frame that
      depends on its own stream. */
  ghost predicate Sendable(maxFrameSize: u32, f: Frame) {
    && |BodyBytes(f)| <= maxFrameSize && |BodyBytes(f)| < 0x100_0000
    && (!f.SettingsFrameOf? ==> 0 < f.streamId < 0x8000_0000)
    && (f.HeadersFrameOf? && f.priority.Some? ==>
          f.priority.value.dep < 0x8000_0000 && f.priority.value.dep != f.streamId)
    && (f.SettingsFrameOf? && f.settings.SettingsBody? ==>
          Reachable(f.settings.settings) && Verdict(f.settings.settings) == None)
  }

  /** What the receiver should get. */
  function Expected(f: Frame): Received {
    var len := Truncated(|BodyBytes(f)|);
    match f
    case DataFrameOf(id, pad, data, isEnd) =>
      BodyOf(FrameHeader(id, len, DATA, (if isEnd then END_STREAM else 0) + (if pad.Some? then PADDED else 0)),
             DataBody(data, isEnd))
    case HeadersFrameOf(id, pad, priority, end, data) =>
      BodyOf(FrameHeader(id, len, HEADERS, HeadersFlags(end, pad.Some?, priority.Some?)),
             HeadersBody(data, if priority.Some? then priority.value else NO_PRIORITY, EndFlags(end)))
    case ContinuationFrameOf(id, isEnd, data) =>
      BodyOf(FrameHeader(id, len, CONTINUATION, if isEnd then END_HEADERS else 0), ContinuationBody(data, isEnd))
    case SettingsFrameOf(settings) =>
      SettingsOf(FrameHeader(0, len, SETTINGS, if settings.Ack? then ACK else 0), settings)
  }

  // ---------- receiving ----------

  /** The body reader for a frame type, on the bytes after the header. */
  function BodyIn(h: FrameHeader, rest: seq<u8>): Result<(Received, seq<u8>), Option<FrameError>> {
    if h.frameType == SETTINGS then
      match SettingsIn(h, rest) case Err(e) => Err(Some(e)) case Ok((s, after)) => Ok((SettingsOf(h, s), after))
    else if h.frameType == DATA then
      match DataIn(h, rest) case Err(e) => Err(Some(e)) case Ok((b, after)) => Ok((BodyOf(h, b), after))
    else if h.frameType == HEADERS then
      match HeadersIn(h, rest) case Err(e) => Err(Some(e)) case Ok((b, after)) => Ok((BodyOf(h, b), after))
    else if h.frameType == CONTINUATION then
      match ContinuationIn(h, rest) case Err(e) => Err(Some(e)) case Ok((b, after)) => Ok((BodyOf(h, b), after))
    else Err(None)
  }

  /** Every reader that succeeds takes exactly the bytes that the frame header announces. */
  lemma BodyLength(h: FrameHeader, rest: seq<u8>)
    ensures BodyIn(h, rest).Ok? ==> h.frameLen <= |rest| && BodyIn(h, rest).value.1 == rest[h.frameLen..]
  {
    hide Bit, Fold, Verdict, PriorityIn, EndFlags;
    if h.frameType == SETTINGS {
      assert rest[0..] == rest;
    } else if h.frameType == DATA {
    } else if h.frameType == HEADERS {
    }
  }

  /** All frames of a stream, or None when it ends inside one, is refused, or has a frame of another type. */
  function ReceiveAll(maxFrameSize: u32, wire: seq<u8>): Option<seq<Received>>
    decreases |wire|
  {
    if wire == [] then Some([])
    else
      match HeaderIn(maxFrameSize, wire)
      case Err(_) => None
      case Ok(h) =>
        var got := BodyIn(h, wire[HEADER_LEN..]);
        if got.Err? then None
        else
          BodyLength(h, wire[HEADER_LEN..]);
          var more := ReceiveAll(maxFrameSize, got.value.1);
          if more.None? then None else Some([got.value.0] + more.value)
  }

  /** The receive loop: frame header, then the matching reader. */
  method Receive(settings: Settings, reader: Reader) returns (frames: Option<seq<Received>>)
    modifies reader
    ensures frames == ReceiveAll(ValueOf(settings, MAX_FRAME_SIZE), old(reader.rest))
  {
    hide HeaderIn, DataIn, HeadersIn, ContinuationIn, SettingsIn, ReceiveAll;
    var maxFrameSize := ValueOf(settings, MAX_FRAME_SIZE);
    var done: seq<Received> := [];
    ghost var wire := reader.rest;
    ReceiveStep(maxFrameSize, wire, []);
    while |reader.rest| > 0
      invariant After(done, ReceiveAll(maxFrameSize, reader.rest)) == ReceiveAll(maxFrameSize, wire)
      decreases |reader.rest|
    {
      ReceiveStep(maxFrameSize, reader.rest, done);
      var header := ReadHeader(settings, reader);
      if header.Err? {
        return None;
      }
      var h := header.value;
      BodyLength(h, reader.rest);
      var body := ReceiveBody(h, reader);
      if body.None? {
        return None;
      }
      done := done + [body.value];
    }
    ReceiveStep(maxFrameSize, reader.rest, done);
    return Some(done);
  }

  method ReceiveBody(h: FrameHeader, reader: Reader) returns (r: Option<Received>)
    modifies reader
    ensures match BodyIn(h, old(reader.rest))
            case Err(_) => r == None
            case Ok((got, after)) => r == Some(got) && reader.rest == after
  {
    hide DataIn, HeadersIn, ContinuationIn, SettingsIn;
    if h.frameType == SETTINGS {
      var s := ReadSettingsFrame(h, reader);
      return if s.Err? then None else Some(SettingsOf(h, s.value));
    }
    var data := new Buffer(0);
    if h.frameType == DATA {
      var frame := new DataFrame(data);
      var error := ReadDataFrame(h, frame, reader);
      if error.Some? {
        return None;
      }
      var bytes := data.AsSlice();
      return Some(BodyOf(h, DataBody(bytes, frame.isEnd)));
    } else if h.frameType == HEADERS {
      var frame := new HeaderFrame(data);
      var error := ReadHeadersFrame(h, frame, reader);
      if error.Some? {
        return None;
      }
      var bytes := data.AsSlice();
      return Some(BodyOf(h, HeadersBody(bytes, frame.priority, frame.end)));
    } else if h.frameType == CONTINUATION {
      var frame := new ContinuationFrame(data);
      ContinuationKind(h, reader.rest);
      var error := ReadContinuationFrame(h, frame, reader);
      if error.Some? {
        return None;
      }
      var bytes := data.AsSlice();
      return Some(BodyOf(h, ContinuationBody(bytes, frame.isEnd)));
    }
    return None;
  }

  lemma ContinuationKind(h: FrameHeader, rest: seq<u8>)
    ensures ContinuationIn(h, rest).Ok? ==> ContinuationIn(h, rest).value.0.ContinuationBody?
    ensures ContinuationIn(h, rest).Ok? ==>
              [] + ContinuationIn(h, rest).value.0.data == ContinuationIn(h, rest).value.0.data
  {
  }

  function After(done: seq<Received>, more: Option<seq<Received>>): Option<seq<Received>> {
    match more case None => None case Some(rs) => Some(done + rs)
  }

  /** One turn of the receive loop. */
  lemma ReceiveStep(maxFrameSize: u32, wire: seq<u8>, done: seq<Received>)
    ensures After([], ReceiveAll(maxFrameSize, wire)) == ReceiveAll(maxFrameSize, wire)
    ensures wire == [] ==> After(done, ReceiveAll(maxFrameSize, wire)) == Some(done)
    ensures wire != [] && HeaderIn(maxFrameSize, wire).Err? ==> ReceiveAll(maxFrameSize, wire) == None
    ensures wire != [] && HeaderIn(maxFrameSize, wire).Ok? ==>
              && |wire| >= HEADER_LEN
              && var got := BodyIn(HeaderIn(maxFrameSize, wire).value, wire[HEADER_LEN..]);
              && (got.Err? ==> ReceiveAll(maxFrameSize, wire) == None)
              && (got.Ok? ==> After(done, ReceiveAll(maxFrameSize, wire))
                              == After(done + [got.value.0], ReceiveAll(maxFrameSize, got.value.1)))
  {
    hide BodyIn, FromBE;
    assert done + [] == done;
    if ReceiveAll(maxFrameSize, wire).Some? {
      assert [] + ReceiveAll(maxFrameSize, wire).value == ReceiveAll(maxFrameSize, wire).value;
    }
    if wire != [] && HeaderIn(maxFrameSize, wire).Ok? {
      var h := HeaderIn(maxFrameSize, wire).value;
      if BodyIn(h, wire[HEADER_LEN..]).Ok? {
        var (r, after) := BodyIn(h, wire[HEADER_LEN..]).value;
        BodyLength(h, wire[HEADER_LEN..]);
        if ReceiveAll(maxFrameSize, after).Some? {
          var rs := ReceiveAll(maxFrameSize, after).value;
          assert done + ([r] + rs) == done + [r] + rs;
        }
      }
    }
  }

  // ---------- round trip ----------

  lemma DataRoundTrip(h: FrameHeader, pad: Option<u8>, data: seq<u8>, rest: seq<u8>)
    requires h.streamId != 0 && h.frameLen == |Padded(pad, data)| && (Bit(h.flags, 3) <==> pad.Some?)
    ensures DataIn(h, Padded(pad, data) + rest) == Ok((DataBody(data, Bit(h.flags, 0)), rest))
  {
    hide Bit, Unpadded, Padded;
    PaddedFront(pad, data, rest);
    UnpaddedTail(data, if pad.Some? then pad.value else 0, rest);
  }

  lemma PriorityRoundTrip(p: Priority, rest: seq<u8>)
    requires p.dep < 0x8000_0000
    ensures |PrintPriority(Some(p))| == 5
    ensures PriorityIn(PrintPriority(Some(p)) + rest) == p
  {
    hide ToBE, FromBE;
    PowersOf256();
    var d := p.dep + (if p.exclusive then 0x8000_0000 else 0);
    FromToBE(d, 4);
    var wire := PrintPriority(Some(p)) + rest;
    assert wire[..4] == ToBE(d, 4);
  }

  lemma HeadersRoundTrip(h: FrameHeader, pad: Option<u8>, priority: Option<Priority>, data: seq<u8>, rest: seq<u8>)
    requires h.streamId != 0 && h.frameLen == |Padded(pad, PrintPriority(priority) + data)|
    requires (Bit(h.flags, 3) <==> pad.Some?) && (Bit(h.flags, 5) <==> priority.Some?)
    requires priority.Some? ==> priority.value.dep < 0x8000_0000 && priority.value.dep != h.streamId
    ensures HeadersIn(h, Padded(pad, PrintPriority(priority) + data) + rest)
         == Ok((HeadersBody(data, if priority.Some? then priority.value else NO_PRIORITY, EndFlags(h.flags)), rest))
  {
    hide Bit, PrintPriority, EndFlags, Padded, HeadersAfterPadding;
    var front := PrintPriority(priority);
    var padding: u8 := if pad.Some? then pad.value else 0;
    PaddedFront(pad, front + data, rest);
    assert front + data + Zeros(padding) + rest == front + (data + Zeros(padding) + rest);
    PrioritisedRoundTrip(h, padding, priority, data, rest);
  }

  lemma PrioritisedRoundTrip(h: FrameHeader, padding: u8, priority: Option<Priority>, data: seq<u8>, rest: seq<u8>)
    requires Bit(h.flags, 5) <==> priority.Some?
    requires h.streamId != 0
    requires priority.Some? ==> priority.value.dep < 0x8000_0000 && priority.value.dep != h.streamId
    ensures var front := PrintPriority(priority);
            HeadersAfterPadding(h, padding, |front| + |data| + padding, front + (data + Zeros(padding) + rest)) ==
            Ok((HeadersBody(data, if priority.Some? then priority.value else NO_PRIORITY, EndFlags(h.flags)), rest))
  {
    hide Bit, PrintPriority, PriorityIn, EndFlags, Unpadded;
    var tail := data + Zeros(padding) + rest;
    var wire := PrintPriority(priority) + tail;
    NoPriority();
    UnpaddedTail(data, padding, rest);
    if priority.Some? {
      PriorityRoundTrip(priority.value, tail);
      assert wire[5..] == tail;
    } else {
      assert wire == tail;
    }
  }

  lemma PaddedFront(pad: Option<u8>, inner: seq<u8>, rest: seq<u8>)
    ensures var padding: u8 := if pad.Some? then pad.value else 0;
            var wire := Padded(pad, inner) + rest;
            && |Padded(pad, inner)| == |inner| + padding + (if pad.Some? then 1 else 0)
            && (pad.Some? ==> wire[0] == padding && wire[1..] == inner + Zeros(padding) + rest)
            && (pad.None? ==> wire == inner + Zeros(padding) + rest)
  {
  }

  lemma UnpaddedTail(data: seq<u8>, padding: u8, rest: seq<u8>)
    ensures Unpadded(|data| + padding, padding, data + Zeros(padding) + rest) == Ok((data, rest))
  {
    var wire := data + Zeros(padding) + rest;
    assert wire[..|data|] == data && wire[|data| + padding..] == rest;
  }

  /** A printed frame is its expected header and its body. */
  lemma FrameWire(maxFrameSize: u32, f: Frame)
    requires Sendable(maxFrameSize, f)
    ensures var h := Expected(f).header;
            && Print(f) == PrintHeader(h) + BodyBytes(f)
            && h.frameLen == |BodyBytes(f)| && h.streamId < 0x8000_0000
  {
    hide PrintHeader, Padded, PrintPriority, Differences, HeadersFlags, EndFlags, Bit, Verdict, Reachable;
    if f.SettingsFrameOf? {
      SettingsRoundTrip(f.settings, []);
    }
  }

  /** Its body, under that header, reads back as expected. */
  lemma FrameBody(maxFrameSize: u32, f: Frame, rest: seq<u8>)
    requires Sendable(maxFrameSize, f)
    ensures BodyIn(Expected(f).header, BodyBytes(f) + rest) == Ok((Expected(f), rest))
  {
    hide PrintHeader, Padded, PrintPriority, DataIn, HeadersIn, SettingsIn, Differences;
    hide HeadersFlags, EndFlags, Bit, Verdict, Reachable;
    var h := Expected(f).header;
    FlagBits(h.flags);
    match f
    case DataFrameOf(id, pad, data, isEnd) =>
      DataRoundTrip(h, pad, data, rest);
    case HeadersFrameOf(id, pad, priority, end, data) =>
      HeadersFlagsRead(end, pad.Some?, priority.Some?);
      HeadersRoundTrip(h, pad, priority, data, rest);
    case ContinuationFrameOf(id, isEnd, data) =>
      assert (data + rest)[..|data|] == data && (data + rest)[|data|..] == rest;
    case SettingsFrameOf(settings) =>
      SettingsRoundTrip(settings, rest);
  }

  /** One frame, followed by anything. */
  lemma FrameRoundTrip(maxFrameSize: u32, f: Frame, rest: seq<u8>)
    requires Sendable(maxFrameSize, f)
    ensures HeaderIn(maxFrameSize, Print(f) + rest) == Ok(Expected(f).header)
    ensures |Print(f)| >= HEADER_LEN && (Print(f) + rest)[HEADER_LEN..] == BodyBytes(f) + rest
    ensures BodyIn(Expected(f).header, BodyBytes(f) + rest) == Ok((Expected(f), rest))
  {
    hide PrintHeader, HeaderIn, BodyIn, Expected, BodyBytes, Print;
    FrameWire(maxFrameSize, f);
    FrameBody(maxFrameSize, f, rest);
    var h := Expected(f).header;
    assert Print(f) + rest == PrintHeader(h) + (BodyBytes(f) + rest);
    HeaderRoundTrip(maxFrameSize, h, BodyBytes(f) + rest);
  }

  function PrintStream(frames: seq<Frame>): seq<u8> {
    if frames == [] then [] else Print(frames[0]) + PrintStream(frames[1..])
  }

  function ExpectedAll(frames: seq<Frame>): seq<Received> {
    if frames == [] then [] else [Expected(frames[0])] + ExpectedAll(frames[1..])
  }

  /** The stream stays in step: any list of frames, written one after another, is received as the
      same list. */
  lemma {:induction false} StreamRoundTrip(maxFrameSize: u32, frames: seq<Frame>)
    requires forall f :: f in frames ==> Sendable(maxFrameSize, f)
    ensures ReceiveAll(maxFrameSize, PrintStream(frames)) == Some(ExpectedAll(frames))
    decreases |frames|
  {
    hide Print, Expected, BodyIn, HeaderIn, BodyBytes, Sendable;
    if frames != [] {
      var rest := PrintStream(frames[1..]);
      assert frames[0] in frames;
      FrameRoundTrip(maxFrameSize, frames[0], rest);
      StreamRoundTrip(maxFrameSize, frames[1..]);
    }
  }
}
