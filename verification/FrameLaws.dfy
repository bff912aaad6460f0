/** Frames as bytes: what every printed frame looks like on the wire, and exactly when each reader
    refuses one (sections 4.1, 6.1, 6.2, 6.5 and 6.10 of RFC 9113). */
module FrameLaws {
  import opened Wrappers
  import opened Arithmetic
  import opened Words
  import opened Frames
  import opened FrameBodies
  import opened SettingsFrames

  // ---------- integers and frame headers ----------

  /** A big-endian number of four bytes. */
  function Number(b0: u8, b1: u8, b2: u8, b3: u8): nat {
    0x100_0000 * b0 as nat + 0x1_0000 * b1 as nat + 0x100 * b2 as nat + b3 as nat
  }

  lemma BytesOfBE(s: seq<u8>)
    ensures |s| == 2 ==> FromBE(s) == Number(0, 0, s[0], s[1])
    ensures |s| == 3 ==> FromBE(s) == Number(0, s[0], s[1], s[2])
    ensures |s| == 4 ==> FromBE(s) == Number(s[0], s[1], s[2], s[3])
  {
    hide FromBE;
    if 2 <= |s| <= 4 {
      LastByte([], s[0]);
      LastByte([s[0]], s[1]);
      if |s| == 2 {
        assert s == [s[0]] + [s[1]];
      } else {
        LastByte([s[0], s[1]], s[2]);
        assert [s[0]] + [s[1]] == [s[0], s[1]];
        if |s| == 3 {
          assert s == [s[0], s[1]] + [s[2]];
        } else {
          LastByte([s[0], s[1], s[2]], s[3]);
          assert [s[0], s[1]] + [s[2]] == [s[0], s[1], s[2]];
          assert s == [s[0], s[1], s[2]] + [s[3]];
        }
      }
    }
  }

  lemma LastByte(s: seq<u8>, b: u8)
    ensures FromBE(s + [b]) == 256 * FromBE(s) + b
    ensures FromBE([]) == 0 && [] + [b] == [b]
  {
    assert (s + [b])[..|s|] == s;
  }

  /** The bytes of a 32-bit number. */
  function Bytes(n: u32): seq<u8> {
    [n / 0x100_0000, n / 0x1_0000 % 0x100, n / 0x100 % 0x100, n % 0x100]
  }

  lemma BEBytes(n: u32)
    ensures ToBE(n, 4) == Bytes(n)
    ensures n < 0x100_0000 ==> ToBE(n, 3) == Bytes(n)[1..]
    ensures n < 0x1_0000 ==> ToBE(n, 2) == Bytes(n)[2..]
  {
    hide ToBE;
    var a, b, c := n / 0x100, n / 0x1_0000, n / 0x100_0000;
    assert a / 256 == b && b / 256 == c;
    ToBEStep(n);
    ToBEStep(a);
    ToBEStep(b);
    ToBEStep(c);
  }

  lemma ToBEStep(n: nat)
    ensures ToBE(n, 4) == ToBE(n / 256, 3) + [n % 256]
    ensures ToBE(n, 3) == ToBE(n / 256, 2) + [n % 256]
    ensures ToBE(n, 2) == ToBE(n / 256, 1) + [n % 256]
    ensures ToBE(n, 1) == [n % 256]
  {
  }

  /** The nine bytes in front of a body: 24 bits of its length, type, flags, and 31 bits of a stream. */
  function WireHeader(len: nat, frameType: u8, flags: u8, stream: u32): seq<u8> {
    Bytes(len % 0x100_0000)[1..] + [frameType, flags] + Bytes(stream % 0x8000_0000)
  }

  lemma HeaderBytes(h: FrameHeader)
    ensures PrintHeader(h) == WireHeader(h.frameLen, h.frameType, h.flags, h.streamId)
  {
    hide ToBE, Bytes;
    BEBytes(h.frameLen % 0x100_0000);
    BEBytes(h.streamId % 0x8000_0000);
  }

  /** A frame's length field, counted in 32 bits, has the low 24 bits of the length of its body. */
  lemma FrameWire(frameType: u8, flags: u8, streamId: u32, body: seq<u8>)
    ensures PrintFrame(frameType, flags, streamId, body) == WireHeader(|body|, frameType, flags, streamId) + body
  {
    hide PrintHeader, Bytes;
    HeaderBytes(FrameHeader(streamId, Truncated(|body|), frameType, flags));
    LowBits(|body|);
  }

  lemma LowBits(n: nat)
    ensures Truncated(n) % 0x100_0000 == n % 0x100_0000
  {
    var q, r := n / TWO_32, n % TWO_32;
    var a, b := r / 0x100_0000, r % 0x100_0000;
    assert n == 0x100_0000 * (256 * q + a) + b;
    DivMod(0x100_0000, 256 * q + a, b);
  }

  /** A frame header is refused when it is cut short, and when its length is over the maximum. */
  lemma HeaderRefused(maxFrameSize: u32, rest: seq<u8>)
    ensures HeaderIn(maxFrameSize, rest) == Err(Io) <==> |rest| < 9
    ensures HeaderIn(maxFrameSize, rest) == Err(FrameSizeError) <==>
            |rest| >= 9 && Number(0, rest[0], rest[1], rest[2]) > maxFrameSize
    ensures HeaderIn(maxFrameSize, rest).Ok? ==>
              HeaderIn(maxFrameSize, rest).value
              == FrameHeader(Number(rest[5] % 0x80, rest[6], rest[7], rest[8]),
                             Number(0, rest[0], rest[1], rest[2]), rest[3], rest[4])
  {
    hide FromBE, Number;
    if |rest| >= 9 {
      PowersOf256();
      BytesOfBE(rest[..3]);
      BytesOfBE(rest[5..9]);
      FlagBit(rest[5], rest[6], rest[7], rest[8]);
    }
  }

  // ---------- printed frames ----------

  /** DATA frames have type 0, flag 1 for the end of the stream and flag 8 for padding. */
  lemma DataWire(streamId: u32, pad: Option<u8>, data: seq<u8>, isEnd: bool)
    ensures pad.None? ==>
              PrintData(streamId, pad, data, isEnd) == WireHeader(|data|, 0, if isEnd then 1 else 0, streamId) + data
    ensures pad.Some? ==>
              PrintData(streamId, pad, data, isEnd)
              == WireHeader(1 + |data| + pad.value, 0, if isEnd then 9 else 8, streamId)
                 + ([pad.value] + data + Zeros(pad.value))
  {
    hide PrintFrame, WireHeader;
    FrameWire(0, (if isEnd then 1 else 0) + (if pad.Some? then 8 else 0), streamId, Padded(pad, data));
  }

  /** HEADERS frames have type 1, flags 1 and 4 for the ends of stream and headers, 8 for padding and 32
      for a priority, which is five bytes: a flag bit with a 31-bit stream, and a weight. */
  lemma HeadersWire(streamId: u32, pad: Option<u8>, priority: Option<Priority>, end: u8, data: seq<u8>)
    ensures var flags := end % 2 + 4 * (end / 4 % 2) + (if pad.Some? then 8 else 0)
                         + (if priority.Some? then 32 else 0);
            var front := if priority.None? then []
                         else
                           Bytes(priority.value.dep % 0x8000_0000 + if priority.value.exclusive then 0x8000_0000 else 0)
                           + [priority.value.weight];
            var len := |front| + |data|;
            && (pad.None? ==>
                  PrintHeaders(streamId, pad, priority, end, data)
                  == WireHeader(len, 1, flags, streamId) + (front + data))
            && (pad.Some? ==>
                  PrintHeaders(streamId, pad, priority, end, data)
                  == WireHeader(1 + len + pad.value, 1, flags, streamId)
                     + ([pad.value] + (front + data) + Zeros(pad.value)))
  {
    hide PrintFrame, WireHeader, ToBE, Bit, Bytes;
    FlagBits(end);
    if priority.Some? {
      BEBytes(priority.value.dep % 0x8000_0000 + if priority.value.exclusive then 0x8000_0000 else 0);
    }
    var flags := end % 2 + 4 * (end / 4 % 2) + (if pad.Some? then 8 else 0) + (if priority.Some? then 32 else 0);
    FrameWire(1, flags, streamId, Padded(pad, PrintPriority(priority) + data));
  }

  /** CONTINUATION frames have type 9 and flag 4 for the end of the headers. */
  lemma ContinuationWire(streamId: u32, isEnd: bool, data: seq<u8>)
    ensures PrintContinuation(streamId, isEnd, data)
         == WireHeader(|data|, 9, if isEnd then 4 else 0, streamId) + data
  {
    hide PrintFrame, WireHeader;
    FrameWire(9, if isEnd then 4 else 0, streamId, data);
  }

  /** SETTINGS frames have type 4, stream 0 and flag 1 for an acknowledgement, which is empty; a pair is
      a number in two bytes and a value in four, and only values that differ from the defaults are sent. */
  lemma SettingsWire(num: nat, value: u32)
    requires 1 <= num <= 6 && SetValue(Default(num - 1), value) != Default(num - 1)
    ensures PrintSettings(Ack) == WireHeader(0, 4, 1, 0)
    ensures PrintSettings(SettingsBody(DEFAULTS)) == WireHeader(0, 4, 0, 0)
    ensures PrintSettings(SettingsBody(DEFAULTS[num - 1 := SetValue(Default(num - 1), value)]))
         == WireHeader(6, 4, 0, 0) + [0, num] + Bytes(value)
  {
    hide PrintHeader, WireHeader, SetValue, Default, PrintPair, Bytes;
    HeaderBytes(FrameHeader(0, 0, 4, 1));
    HeaderBytes(FrameHeader(0, 0, 4, 0));
    HeaderBytes(FrameHeader(0, 6, 4, 0));
    NoDifference(DEFAULTS, 0);
    var s: Settings := DEFAULTS[num - 1 := SetValue(Default(num - 1), value)];
    OneDifference(s, num - 1, 0);
    PairBytes(num, value);
    var h := PrintHeader(FrameHeader(0, 6, 4, 0));
    assert h + ([0, num] + Bytes(value)) == h + [0, num] + Bytes(value);
  }

  lemma PairBytes(num: nat, value: u32)
    requires 1 <= num <= 6
    ensures PrintPair(SetValue(Default(num - 1), value)) == [0, num] + Bytes(value)
  {
    hide ToBE, SetValue, Default, Num;
    NumberOf(num - 1, value);
    BEBytes(num);
    BEBytes(value);
    SetValueIs(Default(num - 1), value);
  }

  lemma SetValueIs(s: Setting, value: u32)
    ensures SetValue(s, value).value == value
  {
  }

  lemma {:induction false} NoDifference(s: Settings, i: nat)
    requires i <= 6 && forall k :: i <= k < 6 ==> s[k] == Default(k)
    ensures Differences(s, i) == []
    decreases 6 - i
  {
    hide Default, PrintPair;
    if i < 6 { NoDifference(s, i + 1); }
  }

  lemma {:induction false} OneDifference(s: Settings, at: nat, i: nat)
    requires i <= at < 6 && s[at] != Default(at) && forall k :: i <= k < 6 && k != at ==> s[k] == Default(k)
    ensures Differences(s, i) == PrintPair(s[at])
    decreases 6 - i
  {
    hide Default, PrintPair;
    if i < at {
      OneDifference(s, at, i + 1);
    } else {
      NoDifference(s, i + 1);
    }
  }

  // ---------- what the readers refuse ----------

  /** A DATA frame is refused on stream 0, and when its padding, or even the byte that gives it, is more
      than its length leaves room for; and then when it is cut short. */
  predicate DataRefused(h: FrameHeader, rest: seq<u8>) {
    || h.streamId == 0
    || (h.flags / 8 % 2 == 1 && (h.frameLen == 0 || (rest != [] && rest[0] >= h.frameLen)))
  }

  lemma DataVerdict(h: FrameHeader, rest: seq<u8>)
    ensures DataIn(h, rest) == Err(ProtocolError) <==> DataRefused(h, rest)
    ensures DataIn(h, rest) == Err(Io) <==> !DataRefused(h, rest) && |rest| < h.frameLen
    ensures DataIn(h, rest).Ok? <==> !DataRefused(h, rest) && |rest| >= h.frameLen
    ensures DataIn(h, rest).Ok? ==>
              var payload := if h.flags / 8 % 2 == 1 then rest[1..h.frameLen - rest[0]] else rest[..h.frameLen];
              DataIn(h, rest).value == (DataBody(payload, h.flags % 2 == 1), rest[h.frameLen..])
  {
    hide Bit;
    FlagBits(h.flags);
    if h.flags / 8 % 2 == 1 && DataIn(h, rest).Ok? {
      assert rest[1..][h.frameLen - 1..] == rest[h.frameLen..];
      assert rest[1..][..h.frameLen - 1 - rest[0]] == rest[1..h.frameLen - rest[0]];
    }
  }

  /** Whether a HEADERS body says, after the byte for its padding, that it depends on its own stream. */
  predicate DependsOnItself(h: FrameHeader, rest: seq<u8>)
    requires h.flags / 32 % 2 == 1 ==> |rest| >= 5
  {
    h.flags / 32 % 2 == 1 && Number(rest[0] % 0x80, rest[1], rest[2], rest[3]) == h.streamId
  }

  /** The priority there: a 31-bit stream, the exclusive flag above it, and a weight; without one,
      stream 0, not exclusive, weight 16. */
  function WirePriority(h: FrameHeader, rest: seq<u8>): Priority
    requires h.flags / 32 % 2 == 1 ==> |rest| >= 5
  {
    if h.flags / 32 % 2 == 1 then
      Priority(Number(rest[0] % 0x80, rest[1], rest[2], rest[3]), rest[0] >= 0x80, rest[4])
    else Priority(0, false, 16)
  }

  /** What is left of the length after the padding's length byte has no room for the priority and the
      padding, or there is a dependency on the frame's own stream; priority and padding are looked at
      when the priority is there. */
  predicate FrontRefused(h: FrameHeader, padding: u8, left: nat, rest: seq<u8>) {
    var k := if h.flags / 32 % 2 == 1 then 5 else 0;
    left < k || (|rest| >= k && (left < k + padding || DependsOnItself(h, rest)))
  }

  lemma FrontVerdict(h: FrameHeader, padding: u8, left: nat, rest: seq<u8>)
    requires h.streamId != 0
    ensures var got := HeadersAfterPadding(h, padding, left, rest);
            && (got == Err(ProtocolError) <==> FrontRefused(h, padding, left, rest))
            && (got == Err(Io) <==> !FrontRefused(h, padding, left, rest) && |rest| < left)
            && (got.Ok? <==> !FrontRefused(h, padding, left, rest) && |rest| >= left)
            && (got.Ok? ==>
                  var k := if h.flags / 32 % 2 == 1 then 5 else 0;
                  got.value == (HeadersBody(rest[k..left - padding], WirePriority(h, rest),
                                            h.flags % 2 + 4 * (h.flags / 4 % 2)), rest[left..]))
  {
    hide Bit, FromBE, Number, PriorityIn;
    FlagBits(h.flags);
    if |rest| >= 5 { PriorityBytes(rest); }
    if h.flags / 32 % 2 == 1 && |rest| >= left >= 5 + padding { AfterFive(rest, left, padding); }
  }

  lemma AfterFive(s: seq<u8>, n: nat, padding: nat)
    requires 5 + padding <= n <= |s|
    ensures s[5..][n - 5..] == s[n..] && s[5..][..n - 5 - padding] == s[5..n - padding]
  {
  }

  /** A HEADERS frame is refused on stream 0, when it is padded and has no room for the byte that says
      how much, and as its front is. */
  predicate HeadersRefused(h: FrameHeader, rest: seq<u8>) {
    || h.streamId == 0
    || (h.flags / 8 % 2 == 0 && FrontRefused(h, 0, h.frameLen, rest))
    || (h.flags / 8 % 2 == 1 && h.frameLen == 0)
    || (h.flags / 8 % 2 == 1 && h.frameLen > 0 && rest != [] && FrontRefused(h, rest[0], h.frameLen - 1, rest[1..]))
  }

  lemma HeadersVerdict(h: FrameHeader, rest: seq<u8>)
    ensures HeadersIn(h, rest) == Err(ProtocolError) <==> HeadersRefused(h, rest)
    ensures HeadersIn(h, rest) == Err(Io) <==> !HeadersRefused(h, rest) && |rest| < h.frameLen
    ensures HeadersIn(h, rest).Ok? <==> !HeadersRefused(h, rest) && |rest| >= h.frameLen
    ensures HeadersIn(h, rest).Ok? ==>
              var padded := h.flags / 8 % 2 == 1;
              var padding := if padded then rest[0] else 0;
              var inner := if padded then rest[1..] else rest;
              var front := (if padded then 1 else 0) + (if h.flags / 32 % 2 == 1 then 5 else 0);
              && front <= h.frameLen - padding
              && HeadersIn(h, rest).value
                 == (HeadersBody(rest[front..h.frameLen - padding], WirePriority(h, inner),
                                 h.flags % 2 + 4 * (h.flags / 4 % 2)), rest[h.frameLen..])
  {
    hide Bit, HeadersAfterPadding, WirePriority, FrontRefused;
    FlagBits(h.flags);
    if h.streamId != 0 {
      if h.flags / 8 % 2 == 0 {
        FrontVerdict(h, 0, h.frameLen, rest);
        RoomForFront(h, 0, h.frameLen, rest);
      } else if h.frameLen > 0 && rest != [] {
        var left := h.frameLen - 1;
        FrontVerdict(h, rest[0], left, rest[1..]);
        RoomForFront(h, rest[0], left, rest[1..]);
        if HeadersIn(h, rest).Ok? {
          var k := if h.flags / 32 % 2 == 1 then 5 else 0;
          AfterFirst(rest, k, left - rest[0]);
          AfterFirst(rest, left, left);
        }
      }
    }
  }

  lemma AfterFirst(s: seq<u8>, a: nat, b: nat)
    requires a <= b < |s|
    ensures s[1..][a..b] == s[1 + a..1 + b] && s[1..][a..] == s[1 + a..]
  {
  }

  lemma RoomForFront(h: FrameHeader, padding: u8, left: nat, rest: seq<u8>)
    ensures !FrontRefused(h, padding, left, rest) && |rest| >= left ==>
              (if h.flags / 32 % 2 == 1 then 5 else 0) + padding <= left
  {
  }

  lemma PriorityBytes(rest: seq<u8>)
    requires |rest| >= 5
    ensures PriorityIn(rest)
         == Priority(Number(rest[0] % 0x80, rest[1], rest[2], rest[3]), rest[0] >= 0x80, rest[4])
  {
    hide FromBE, Number;
    BytesOfBE(rest[..4]);
    FlagBit(rest[0], rest[1], rest[2], rest[3]);
  }

  /** The top bit of four bytes, and the 31 below it. */
  lemma FlagBit(b0: u8, b1: u8, b2: u8, b3: u8)
    ensures Number(b0, b1, b2, b3) % 0x8000_0000 == Number(b0 % 0x80, b1, b2, b3)
    ensures Number(b0, b1, b2, b3) >= 0x8000_0000 <==> b0 >= 0x80
  {
    var low := Number(b0 % 0x80, b1, b2, b3);
    assert Number(b0, b1, b2, b3) == 0x8000_0000 * (b0 / 0x80) + low;
    DivMod(0x8000_0000, b0 / 0x80, low);
  }

  lemma ContinuationVerdict(h: FrameHeader, rest: seq<u8>)
    ensures ContinuationIn(h, rest) == Err(ProtocolError) <==> h.streamId == 0
    ensures ContinuationIn(h, rest) == Err(Io) <==> h.streamId != 0 && |rest| < h.frameLen
    ensures ContinuationIn(h, rest).Ok? ==>
              ContinuationIn(h, rest).value
              == (ContinuationBody(rest[..h.frameLen], h.flags / 4 % 2 == 1), rest[h.frameLen..])
  {
    hide Bit;
    FlagBits(h.flags);
  }

  // ---------- SETTINGS ----------

  /** The value of a setting after a frame: the last one on the wire, or the default. */
  function Final(wire: seq<u8>, num: nat, default: u32): u32 {
    match LastValue(wire, num) case None => default case Some(v) => v
  }

  /** Which SETTINGS frames are refused, for what, and in which order: stream, acknowledgement, length,
      missing bytes, and then the final values of ENABLE_PUSH, INITIAL_WINDOW_SIZE and MAX_FRAME_SIZE. */
  lemma SettingsVerdict(h: FrameHeader, rest: seq<u8>)
    ensures h.streamId != 0 ==> SettingsIn(h, rest) == Err(ProtocolError)
    ensures h.streamId == 0 && h.flags % 2 == 1 ==>
              SettingsIn(h, rest) == if h.frameLen == 0 then Ok((Ack, rest)) else Err(FrameSizeError)
    ensures h.streamId == 0 && h.flags % 2 == 0 && h.frameLen % 6 != 0 ==> SettingsIn(h, rest) == Err(FrameSizeError)
    ensures h.streamId == 0 && h.flags % 2 == 0 && h.frameLen % 6 == 0 && |rest| < h.frameLen ==>
              SettingsIn(h, rest) == Err(Io)
    ensures h.streamId == 0 && h.flags % 2 == 0 && h.frameLen % 6 == 0 && |rest| >= h.frameLen ==>
              var wire := rest[..h.frameLen];
              SettingsIn(h, rest) ==
              if Final(wire, 2, 1) > 1 then Err(ProtocolError)
              else if Final(wire, 4, 65535) >= 0x8000_0000 then Err(FlowControlError)
              else if Final(wire, 5, 16384) < 16384 || Final(wire, 5, 16384) > 16777215 then Err(ProtocolError)
              else Ok((SettingsBody(Fold(DEFAULTS, wire)), rest[h.frameLen..]))
  {
    hide Bit, Fold, LastValue, SetValue;
    FlagBits(h.flags);
    if h.frameLen <= |rest| {
      FinalValue(rest[..h.frameLen], 2);
      FinalValue(rest[..h.frameLen], 4);
      FinalValue(rest[..h.frameLen], 5);
    }
  }

  /** The values before anything is said. */
  function Start(num: nat): u32 {
    if num == 1 then 4096 else if num == 2 then 1 else if num == 4 then 65535 else if num == 5 then 16384 else 0
  }

  /** After a frame each of the six settings has its number and its final value, and exists, but for
      MAX_CONCURRENT_STREAMS and MAX_HEADER_LIST_SIZE when they are not mentioned. */
  lemma FinalValue(wire: seq<u8>, num: nat)
    requires 1 <= num <= 6
    ensures var s := Fold(DEFAULTS, wire)[num - 1];
            && s.value == Final(wire, num, Start(num)) && Num(s) == num
            && (s.numFlags / 2 % 2 == 1 <==> LastValue(wire, num).Some? || num !in {3, 6})
            && (s.numFlags % 2 == 1 <==> num in {3, 6})
  {
    hide Bit, Fold, LastValue;
    LastValueCounts(DEFAULTS, wire, num);
    BitAsQuotient(Default(num - 1).numFlags, 1);
    PowersOfTwo();
  }
}
