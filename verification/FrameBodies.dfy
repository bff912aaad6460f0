/** The bodies of DATA, HEADERS and CONTINUATION frames (frame/data.rs, frame/header.rs,
    frame/continuation.rs; sections 6.1, 6.2 and 6.10 of RFC 9113). */
module FrameBodies {
  import opened Wrappers
  import opened Words
  import opened Buffers
  import opened Streams
  import opened Frames

  const DATA: u8 := 0
  const HEADERS: u8 := 1
  const CONTINUATION: u8 := 9

  // ---------- flags ----------

  const END_STREAM: u8 := 0x01
  const END_HEADERS: u8 := 0x04
  const PADDED: u8 := 0x08
  const PRIORITY: u8 := 0x20

  /** `flags & (END_STREAM | END_HEADERS)` */
  function EndFlags(flags: u8): u8 {
    (if Bit(flags, 0) then END_STREAM else 0) + (if Bit(flags, 2) then END_HEADERS else 0)
  }

  /** The flags of a HEADERS frame; `|=` with a flag that is clear adds it. */
  function HeadersFlags(end: u8, padded: bool, priority: bool): u8 {
    EndFlags(end) + (if padded then PADDED else 0) + (if priority then PRIORITY else 0)
  }

  lemma FlagBits(f: u8)
    ensures Bit(f, 0) <==> f % 2 == 1
    ensures Bit(f, 2) <==> f / 4 % 2 == 1
    ensures Bit(f, 3) <==> f / 8 % 2 == 1
    ensures Bit(f, 5) <==> f / 32 % 2 == 1
  {
    hide Bit;
    PowersOfTwo();
    BitAsQuotient(f, 0);
    BitAsQuotient(f, 2);
    BitAsQuotient(f, 3);
    BitAsQuotient(f, 5);
  }

  lemma HeadersFlagsRead(end: u8, padded: bool, priority: bool)
    ensures var f := HeadersFlags(end, padded, priority);
            (Bit(f, 3) <==> padded) && (Bit(f, 5) <==> priority) && EndFlags(f) == EndFlags(end)
  {
    hide Bit;
    FlagBits(HeadersFlags(end, padded, priority));
  }

  // ---------- what a body says ----------

  /** A dependency: the stream it is on, whether exclusively, and a weight. */
  datatype Priority = Priority(dep: u32, exclusive: bool, weight: u8)

  const NO_PRIORITY: Priority := Priority(0, false, 16)

  /** A frame body as its reader sees it. */
  datatype Body =
    | DataBody(data: seq<u8>, isEnd: bool)
    | HeadersBody(data: seq<u8>, priority: Priority, end: u8)
    | ContinuationBody(data: seq<u8>, isEnd: bool)

  /** A padded payload of frameLen bytes, after its first byte when that gives the padding, and the
      rest of the source. */
  function Unpadded(frameLen: nat, padding: u8, rest: seq<u8>): Result<(seq<u8>, seq<u8>), FrameError> {
    if padding > frameLen then Err(ProtocolError)
    else if |rest| < frameLen then Err(Io)
    else Ok((rest[..frameLen - padding], rest[frameLen..]))
  }

  function DataIn(h: FrameHeader, rest: seq<u8>): Result<(Body, seq<u8>), FrameError> {
    if h.streamId == 0 then Err(ProtocolError)
    else
      var padded := Bit(h.flags, 3);
      if padded && h.frameLen == 0 then Err(ProtocolError)
      else if padded && rest == [] then Err(Io)
      else
        match (if padded then Unpadded(h.frameLen - 1, rest[0], rest[1..]) else Unpadded(h.frameLen, 0, rest))
        case Err(e) => Err(e)
        case Ok((data, after)) => Ok((DataBody(data, Bit(h.flags, 0)), after))
  }

  function PriorityIn(rest: seq<u8>): Priority
    requires |rest| >= 5
  {
    assert Pow256(4) == TWO_32;
    var d := FromBE(rest[..4]);
    Priority(d % 0x8000_0000, d >= 0x8000_0000, rest[4])
  }

  /** A HEADERS body after the byte that gives its padding. */
  function HeadersAfterPadding(h: FrameHeader, padding: u8, frameLen: nat, rest: seq<u8>)
    : Result<(Body, seq<u8>), FrameError>
  {
    var prioritised := Bit(h.flags, 5);
    if prioritised && frameLen < 5 then Err(ProtocolError)
    else if prioritised && |rest| < 5 then Err(Io)
    else
      var priority := if prioritised then PriorityIn(rest) else NO_PRIORITY;
      var left := if prioritised then frameLen - 5 else frameLen;
      if padding > left || priority.dep == h.streamId then Err(ProtocolError)
      else
        match Unpadded(left, padding, if prioritised then rest[5..] else rest)
        case Err(e) => Err(e)
        case Ok((data, after)) => Ok((HeadersBody(data, priority, EndFlags(h.flags)), after))
  }

  function HeadersIn(h: FrameHeader, rest: seq<u8>): Result<(Body, seq<u8>), FrameError> {
    if h.streamId == 0 then Err(ProtocolError)
    else if !Bit(h.flags, 3) then HeadersAfterPadding(h, 0, h.frameLen, rest)
    else if h.frameLen == 0 then Err(ProtocolError)
    else if rest == [] then Err(Io)
    else HeadersAfterPadding(h, rest[0], h.frameLen - 1, rest[1..])
  }

  function ContinuationIn(h: FrameHeader, rest: seq<u8>): Result<(Body, seq<u8>), FrameError> {
    if h.streamId == 0 then Err(ProtocolError)
    else if |rest| < h.frameLen then Err(Io)
    else Ok((ContinuationBody(rest[..h.frameLen], Bit(h.flags, 2)), rest[h.frameLen..]))
  }

  // ---------- the readers ----------

  /** `len += n; read_exact(&mut data[start..])`: n more bytes behind the first `start`, if there are. */
  method FillFrom(reader: Reader, b: Buffer, start: nat, n: nat) returns (ok: bool)
    requires b.Valid() && start <= b.len
    modifies reader, b.Repr()
    ensures b.Valid() && fresh(b.Repr() - old(b.Repr()))
    ensures ok <==> n <= |old(reader.rest)|
    ensures ok ==> reader.rest == old(reader.rest)[n..]
    ensures ok ==> b.Contents() == old(b.Contents())[..start] + old(reader.rest)[..n]
  {
    b.len := start;
    b.Reserve(n);
    var bytes := reader.ReadExact(n);
    if bytes.None? {
      return false;
    }
    b.PushSlice(bytes.value);
    return true;
  }

  class DataFrame {
    var isEnd: bool
    const data: Buffer

    constructor (data: Buffer)
      ensures this.data == data
    {
      this.data := data;
      isEnd := false;
    }
  }

  /** Reads data and padding. */
  method ReadUnpadded(frameLen: nat, padding: u8, data: Buffer, reader: Reader) returns (error: Option<FrameError>)
    requires data.Valid() && padding <= frameLen
    modifies reader, data.Repr()
    ensures data.Valid() && fresh(data.Repr() - old(data.Repr()))
    ensures match Unpadded(frameLen, padding, old(reader.rest))
            case Err(e) => error == Some(e)
            case Ok((payload, after)) => error == None && data.Contents() == payload && reader.rest == after
  {
    var ok := FillFrom(reader, data, 0, frameLen - padding);
    if !ok {
      return Some(Io);
    }
    var pad := reader.ReadExact(padding);
    if pad.None? {
      return Some(Io);
    }
    return None;
  }

  method ReadDataFrame(header: FrameHeader, frame: DataFrame, reader: Reader) returns (error: Option<FrameError>)
    requires frame.data.Valid()
    modifies frame, frame.data.Repr(), reader
    ensures frame.data.Valid() && fresh(frame.data.Repr() - old(frame.data.Repr()))
    ensures match DataIn(header, old(reader.rest))
            case Err(e) => error == Some(e)
            case Ok((body, after)) =>
              error == None && reader.rest == after && body == DataBody(frame.data.Contents(), frame.isEnd)
  {
    hide Bit;
    if header.streamId == 0 {
      return Some(ProtocolError);
    }
    var dataLen := header.frameLen;
    var paddingLen: u8 := 0;
    if Bit(header.flags, 3) {
      if header.frameLen == 0 {
        return Some(ProtocolError);
      }
      var byte := reader.ReadExact(1);
      if byte.None? {
        return Some(Io);
      }
      paddingLen := byte.value[0];
      dataLen := dataLen - 1;
    }
    if paddingLen > dataLen {
      return Some(ProtocolError);
    }
    error := ReadUnpadded(dataLen, paddingLen, frame.data, reader);
    if error.Some? {
      return;
    }
    frame.isEnd := Bit(header.flags, 0);
  }

  class HeaderFrame {
    const data: Buffer
    var priority: Priority
    var end: u8

    constructor (data: Buffer)
      ensures this.data == data
    {
      this.data := data;
      priority := NO_PRIORITY;
      end := 0;
    }
  }

  method ReadHeadersFrame(header: FrameHeader, frame: HeaderFrame, reader: Reader) returns (error: Option<FrameError>)
    requires frame.data.Valid()
    modifies frame, frame.data.Repr(), reader
    ensures frame.data.Valid() && fresh(frame.data.Repr() - old(frame.data.Repr()))
    ensures match HeadersIn(header, old(reader.rest))
            case Err(e) => error == Some(e)
            case Ok((body, after)) =>
              && error == None && reader.rest == after
              && body == HeadersBody(frame.data.Contents(), frame.priority, frame.end)
  {
    hide Bit, FromBE, EndFlags, Unpadded;
    if header.streamId == 0 {
      return Some(ProtocolError);
    }
    var frameLen := header.frameLen;
    var padLen: u8 := 0;
    if Bit(header.flags, 3) {
      if frameLen == 0 {
        return Some(ProtocolError);
      }
      frameLen := frameLen - 1;
      var byte := reader.ReadExact(1);
      if byte.None? {
        return Some(Io);
      }
      padLen := byte.value[0];
    }
    ghost var rest1 := reader.rest;
    var priority := NO_PRIORITY;
    if Bit(header.flags, 5) {
      if frameLen < 5 {
        return Some(ProtocolError);
      }
      var d := ReadUint(4, reader);
      if d.None? {
        return Some(Io);
      }
      PowersOf256();
      var weight := reader.ReadExact(1);
      if weight.None? {
        return Some(Io);
      }
      frameLen := frameLen - 5;
      priority := Priority(d.value % 0x8000_0000, d.value >= 0x8000_0000, weight.value[0]);
      assert priority == PriorityIn(rest1);
      assert reader.rest == rest1[5..];
    }
    if padLen > frameLen {
      return Some(ProtocolError);
    }
    if priority.dep == header.streamId {
      return Some(ProtocolError);
    }
    frame.priority := priority;
    frame.end := EndFlags(header.flags);
    error := ReadUnpadded(frameLen, padLen, frame.data, reader);
  }

  class ContinuationFrame {
    const data: Buffer
    var isEnd: bool

    constructor (data: Buffer)
      ensures this.data == data
    {
      this.data := data;
      isEnd := false;
    }
  }

  /** Appends to what the buffer holds, as the header decoder needs it after TooSmall. */
  method ReadContinuationFrame(header: FrameHeader, out: ContinuationFrame, reader: Reader)
    returns (error: Option<FrameError>)
    requires out.data.Valid()
    modifies out, out.data.Repr(), reader
    ensures out.data.Valid() && fresh(out.data.Repr() - old(out.data.Repr()))
    ensures match ContinuationIn(header, old(reader.rest))
            case Err(e) => error == Some(e)
            case Ok((body, after)) =>
              && error == None && reader.rest == after && out.isEnd == body.isEnd
              && out.data.Contents() == old(out.data.Contents()) + body.data
  {
    hide Bit;
    if header.streamId == 0 {
      return Some(ProtocolError);
    }
    var ok := FillFrom(reader, out.data, out.data.len, header.frameLen);
    if !ok {
      return Some(Io);
    }
    out.isEnd := Bit(header.flags, 2);
    return None;
  }

  // ---------- the writers ----------

  /** A payload with its padding around it. */
  function Padded(pad: Option<u8>, inner: seq<u8>): seq<u8> {
    match pad
    case None => inner
    case Some(p) => [p] + inner + Zeros(p)
  }

  function PrintPriority(p: Option<Priority>): seq<u8> {
    match p
    case None => []
    case Some(p) => ToBE(p.dep % 0x8000_0000 + (if p.exclusive then 0x8000_0000 else 0), 4) + [p.weight]
  }

  /** `as u32`, and wrapping sums of such lengths. */
  function Truncated(n: nat): u32 {
    n % TWO_32
  }

  lemma TruncatedSum(n: nat, k: nat)
    ensures Truncated(Truncated(n) + k) == Truncated(n + k)
  {
  }

  /** A whole frame: its header with the length of the body, in the 32 bits the writers count in. */
  function PrintFrame(frameType: u8, flags: u8, streamId: u32, body: seq<u8>): seq<u8> {
    PrintHeader(FrameHeader(streamId, Truncated(|body|), frameType, flags)) + body
  }

  function PrintData(streamId: u32, pad: Option<u8>, data: seq<u8>, isEnd: bool): seq<u8> {
    PrintFrame(DATA, (if isEnd then END_STREAM else 0) + (if pad.Some? then PADDED else 0), streamId, Padded(pad, data))
  }

  method WriteDataFrame(streamId: u32, pad: Option<u8>, data: seq<u8>, isEnd: bool, writer: Writer)
    returns (written: nat)
    modifies writer
    ensures writer.written == old(writer.written) + PrintData(streamId, pad, data, isEnd)
    ensures written == HEADER_LEN + |Padded(pad, data)|
  {
    hide PrintHeader, Truncated;
    TruncatedSum(|data|, if pad.Some? then 1 + pad.value else 0);
    var padLen: u8 := 0;
    var frameLen: u32 := Truncated(|data|);
    var flags: u8 := 0;
    if isEnd {
      flags := flags + END_STREAM;
    }
    if pad.Some? {
      padLen := pad.value;
      frameLen := Truncated(frameLen + (1 + pad.value));
      flags := flags + PADDED;
    }
    written := WriteHeader(FrameHeader(streamId, frameLen, DATA, flags), writer);
    if pad.Some? {
      writer.WriteAll([pad.value]);
      written := written + 1;
    }
    writer.WriteAll(data);
    written := written + |data|;
    if pad.Some? {
      writer.WriteAll(Zeros(padLen));
      written := written + padLen;
    }
  }

  /** `write_u32` of the dependency with its flag, and `write_u8` of the weight. */
  method WritePriority(p: Priority, writer: Writer)
    modifies writer
    ensures writer.written == old(writer.written) + PrintPriority(Some(p)) && |PrintPriority(Some(p))| == 5
  {
    hide ToBE;
    var stream := p.dep % 0x8000_0000 + (if p.exclusive then 0x8000_0000 else 0);
    writer.WriteAll(ToBE(stream, 4));
    writer.WriteAll([p.weight]);
  }

  lemma NoPriority()
    ensures PrintPriority(None) == []
  {
  }

  function PrintHeaders(streamId: u32, pad: Option<u8>, priority: Option<Priority>, end: u8, data: seq<u8>): seq<u8> {
    PrintFrame(HEADERS, HeadersFlags(end, pad.Some?, priority.Some?), streamId,
               Padded(pad, PrintPriority(priority) + data))
  }

  method WriteHeadersFrame(streamId: u32, pad: Option<u8>, priority: Option<Priority>, end: u8, data: seq<u8>,
                           writer: Writer)
    returns (written: nat)
    modifies writer
    ensures writer.written == old(writer.written) + PrintHeaders(streamId, pad, priority, end, data)
    ensures written == HEADER_LEN + |Padded(pad, PrintPriority(priority) + data)|
  {
    hide PrintHeader, ToBE, Bit, EndFlags, Truncated, PrintPriority;
    ghost var padding := if pad.Some? then 1 + pad.value else 0;
    TruncatedSum(|data|, padding);
    TruncatedSum(|data| + padding, 5);
    var flags := EndFlags(end);
    EndFlagsSmall(end);
    var len: u32 := Truncated(|data|);
    if pad.Some? {
      flags := flags + PADDED;
      len := Truncated(len + (1 + pad.value));
    }
    if priority.Some? {
      flags := flags + PRIORITY;
      len := Truncated(len + 5);
    }
    written := WriteHeader(FrameHeader(streamId, len, HEADERS, flags), writer);
    ghost var start := writer.written;
    ghost var front: seq<u8> := [];
    if pad.Some? {
      writer.WriteAll([pad.value]);
      written := written + 1;
      front := [pad.value];
    }
    assert writer.written == start + front;
    if priority.Some? {
      WritePriority(priority.value, writer);
      written := written + 5;
    }
    NoPriority();
    assert writer.written == start + (front + PrintPriority(priority));
    writer.WriteAll(data);
    written := written + |data|;
    ghost var inner := PrintPriority(priority) + data;
    assert writer.written == start + (front + inner);
    if pad.Some? {
      writer.WriteAll(Zeros(pad.value));
      written := written + pad.value;
      assert writer.written == start + (front + inner + Zeros(pad.value));
    }
    assert writer.written == start + Padded(pad, inner);
    assert len == Truncated(|Padded(pad, inner)|);
  }

  lemma EndFlagsSmall(f: u8)
    ensures EndFlags(f) <= 5
  {
  }

  function PrintContinuation(streamId: u32, isEnd: bool, data: seq<u8>): seq<u8> {
    PrintFrame(CONTINUATION, if isEnd then END_HEADERS else 0, streamId, data)
  }

  method WriteContinuationFrame(streamId: u32, isEnd: bool, data: seq<u8>, writer: Writer) returns (written: nat)
    modifies writer
    ensures writer.written == old(writer.written) + PrintContinuation(streamId, isEnd, data)
    ensures written == HEADER_LEN + |data|
  {
    hide PrintHeader, Truncated;
    written := WriteHeader(FrameHeader(streamId, Truncated(|data|), CONTINUATION,
                                       if isEnd then END_HEADERS else 0), writer);
    writer.WriteAll(data);
    written := written + |data|;
  }
}
