/** Connection settings (context.rs) and the frame header with its big-endian integers (frame/mod.rs;
    section 4.1 of RFC 9113). */
module Frames {
  import opened Wrappers
  import opened Words
  import opened Streams

  // ---------- settings ----------

  const OPTIONAL_FLAG: u32 := 1
  const EXISTS_FLAG: u32 := 2

  /** A setting: its number above 16 flag bits, and its value. */
  datatype Setting = Setting(numFlags: u32, value: u32)

  /** `Setting::new` */
  function NewSetting(num: u16, value: u32): Setting {
    Setting(num * 0x1_0000 + EXISTS_FLAG, value)
  }

  /** `Setting::new_optional` */
  function NewOptional(num: u16, value: Option<u32>): Setting {
    match value
    case None => Setting(num * 0x1_0000 + OPTIONAL_FLAG, 0)
    case Some(v) => Setting(num * 0x1_0000 + (OPTIONAL_FLAG + EXISTS_FLAG), v)
  }

  /** `num` */
  function Num(s: Setting): u16 {
    s.numFlags / 0x1_0000
  }

  /** `set_value`: `|=` with a flag that is clear adds it. */
  function SetValue(s: Setting, v: u32): Setting {
    assert Bit(s.numFlags, 1) <==> s.numFlags / 2 % 2 == 1;
    Setting(if Bit(s.numFlags, 1) then s.numFlags else s.numFlags + EXISTS_FLAG, v)
  }

  /** The six settings, HEADER_TABLE_SIZE first. */
  type Settings = s: seq<Setting> | |s| == 6 witness DEFAULTS

  /** The value of the i-th setting before anything is negotiated; two are not set at all. */
  function Default(i: nat): Setting {
    if i == 0 then NewSetting(1, 4096)
    else if i == 1 then NewSetting(2, 1)
    else if i == 2 then NewOptional(3, None)
    else if i == 3 then NewSetting(4, 0xFFFF)
    else if i == 4 then NewSetting(5, 0x4000)
    else NewOptional(6, None)
  }

  const DEFAULTS: seq<Setting> := [Default(0), Default(1), Default(2), Default(3), Default(4), Default(5)]

  /** The value of a setting by its number, 1 to 6. */
  function ValueOf(s: Settings, num: nat): u32
    requires 1 <= num <= 6
  {
    s[num - 1].value
  }

  const ENABLE_PUSH: nat := 2
  const INITIAL_WINDOW_SIZE: nat := 4
  const MAX_FRAME_SIZE: nat := 5

  // ---------- frame headers ----------

  datatype FrameHeader = FrameHeader(streamId: u32, frameLen: u32, frameType: u8, flags: u8)

  datatype FrameError = Io | ProtocolError | FrameSizeError | FlowControlError

  const HEADER_LEN: nat := 9

  /** The nine bytes of a frame header: a 24-bit length, type, flags, and a 31-bit stream. */
  function PrintHeader(h: FrameHeader): (s: seq<u8>)
    ensures |s| == HEADER_LEN
  {
    ToBE(h.frameLen % 0x100_0000, 3) + [h.frameType] + [h.flags] + ToBE(h.streamId % 0x8000_0000, 4)
  }

  /** The frame header at the front of a source, for a peer that takes frames up to `maxFrameSize`. */
  function HeaderIn(maxFrameSize: u32, rest: seq<u8>): Result<FrameHeader, FrameError> {
    if |rest| < HEADER_LEN then Err(Io)
    else
      assert Pow256(3) == 0x100_0000 && Pow256(4) == TWO_32;
      var frameLen := FromBE(rest[..3]);
      if frameLen > maxFrameSize then Err(FrameSizeError)
      else Ok(FrameHeader(FromBE(rest[5..9]) % 0x8000_0000, frameLen, rest[3], rest[4]))
  }

  lemma HeaderRoundTrip(maxFrameSize: u32, h: FrameHeader, body: seq<u8>)
    requires h.frameLen < 0x100_0000 && h.streamId < 0x8000_0000
    ensures HeaderIn(maxFrameSize, PrintHeader(h) + body)
         == if h.frameLen > maxFrameSize then Err(FrameSizeError) else Ok(h)
  {
    hide ToBE, FromBE;
    PowersOf256();
    FromToBE(h.frameLen, 3);
    FromToBE(h.streamId, 4);
    var wire := PrintHeader(h) + body;
    assert wire[..3] == ToBE(h.frameLen, 3);
    assert wire[5..9] == ToBE(h.streamId, 4);
  }

  lemma PowersOf256()
    ensures Pow256(1) == 0x100 && Pow256(2) == 0x1_0000 && Pow256(3) == 0x100_0000 && Pow256(4) == TWO_32
  {
  }

  /** A big-endian integer of k bytes read exactly: `read_u8` to `read_u32`. */
  method ReadUint(k: nat, reader: Reader) returns (r: Option<nat>)
    modifies reader
    ensures |old(reader.rest)| >= k ==>
              r == Some(FromBE(old(reader.rest)[..k])) && reader.rest == old(reader.rest)[k..]
    ensures |old(reader.rest)| < k ==> r == None
    ensures r.Some? ==> r.value < Pow256(k)
  {
    var buf := reader.ReadExact(k);
    return if buf.None? then None else Some(FromBE(buf.value));
  }

  method ReadHeader(settings: Settings, reader: Reader) returns (r: Result<FrameHeader, FrameError>)
    modifies reader
    ensures r == HeaderIn(ValueOf(settings, MAX_FRAME_SIZE), old(reader.rest))
    ensures r.Ok? ==> reader.rest == old(reader.rest)[HEADER_LEN..]
  {
    hide FromBE;
    PowersOf256();
    var header := reader.ReadExact(9);
    if header.None? {
      return Err(Io);
    }
    var buf := new Reader(header.value);
    var frameLen := ReadUint(3, buf);
    assert header.value[..3] == old(reader.rest)[..3];
    if frameLen.value > ValueOf(settings, MAX_FRAME_SIZE) {
      return Err(FrameSizeError);
    }
    var frameType := ReadUint(1, buf);
    var flags := ReadUint(1, buf);
    var stream := ReadUint(4, buf);
    ghost var rest := old(reader.rest);
    assert header.value[3..][..1] == [rest[3]] && header.value[3..][1..][..1] == [rest[4]];
    assert header.value[3..][1..][1..][..4] == rest[5..9] && header.value[..3] == rest[..3];
    OneByte(rest[3]);
    OneByte(rest[4]);
    return Ok(FrameHeader(stream.value % 0x8000_0000, frameLen.value, frameType.value, flags.value));
  }

  lemma OneByte(b: u8)
    ensures FromBE([b]) == b && ToBE(b, 1) == [b]
  {
    assert [b][..0] == [];
  }

  method WriteHeader(header: FrameHeader, writer: Writer) returns (written: nat)
    modifies writer
    ensures writer.written == old(writer.written) + PrintHeader(header) && written == HEADER_LEN
  {
    hide ToBE;
    var buf := new Writer();
    buf.WriteAll(ToBE(header.frameLen % 0x100_0000, 3));
    buf.WriteAll([header.frameType]);
    buf.WriteAll([header.flags]);
    buf.WriteAll(ToBE(header.streamId % 0x8000_0000, 4));
    writer.WriteAll(buf.written);
    written := 9;
  }
}
