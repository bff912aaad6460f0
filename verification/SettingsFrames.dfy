/** SETTINGS frames (frame/settings.rs; section 6.5 of RFC 9113). */
module SettingsFrames {
  import opened Wrappers
  import opened Words
  import opened Streams
  import opened Frames

  const SETTINGS: u8 := 4
  const ACK: u8 := 1

  datatype SettingsFrame = SettingsBody(settings: Settings) | Ack

  // ---------- reading: a fold over the wire ----------

  /** One pair of the wire: a known setting takes the value, an unknown one is ignored. */
  function Apply(s: Settings, num: nat, value: u32): Settings {
    if 1 <= num <= 6 then s[num - 1 := SetValue(s[num - 1], value)] else s
  }

  /** The number and value of the pair at the front. */
  function PairAt(wire: seq<u8>): (nat, u32)
    requires |wire| >= 6
  {
    PowersOf256();
    (FromBE(wire[..2]), FromBE(wire[2..6]))
  }

  function Fold(s: Settings, wire: seq<u8>): Settings
    decreases |wire|
  {
    if |wire| < 6 then s else Fold(Apply(s, PairAt(wire).0, PairAt(wire).1), wire[6..])
  }

  /** Validation looks at the final values only. */
  function Verdict(s: Settings): Option<FrameError> {
    if ValueOf(s, ENABLE_PUSH) > 1 then Some(ProtocolError)
    else if ValueOf(s, INITIAL_WINDOW_SIZE) >= 0x8000_0000 then Some(FlowControlError)
    else if !(0x4000 <= ValueOf(s, MAX_FRAME_SIZE) < 0x100_0000) then Some(ProtocolError)
    else None
  }

  function SettingsIn(h: FrameHeader, rest: seq<u8>): Result<(SettingsFrame, seq<u8>), FrameError> {
    if h.streamId != 0 then Err(ProtocolError)
    else if Bit(h.flags, 0) then
      if h.frameLen != 0 then Err(FrameSizeError) else Ok((Ack, rest))
    else if h.frameLen % 6 != 0 then Err(FrameSizeError)
    else if |rest| < h.frameLen then Err(Io)
    else
      var s := Fold(DEFAULTS, rest[..h.frameLen]);
      match Verdict(s)
      case Some(e) => Err(e)
      case None => Ok((SettingsBody(s), rest[h.frameLen..]))
  }

  lemma {:induction false} FoldConcat(s: Settings, a: seq<u8>, b: seq<u8>)
    requires |a| % 6 == 0
    ensures Fold(s, a + b) == Fold(Fold(s, a), b)
    decreases |a|
  {
    hide Apply;
    if a == [] {
      assert a + b == b;
    } else {
      assert (a + b)[6..] == a[6..] + b;
      assert (a + b)[..2] == a[..2] && (a + b)[2..6] == a[2..6];
      FoldConcat(Apply(s, PairAt(a).0, PairAt(a).1), a[6..], b);
    }
  }

  /** The value the wire gives last to a setting. */
  function LastValue(wire: seq<u8>, num: nat): Option<u32>
    decreases |wire|
  {
    if |wire| < 6 then None
    else
      match LastValue(wire[6..], num)
      case Some(v) => Some(v)
      case None => if PairAt(wire).0 == num then Some(PairAt(wire).1) else None
  }

  lemma SetTwice(s: Setting, v: u32, w: u32)
    ensures SetValue(SetValue(s, v), w) == SetValue(s, w)
  {
    BitAsQuotient(SetValue(s, v).numFlags, 1);
    BitAsQuotient(s.numFlags, 1);
    PowersOfTwo();
  }

  /** Of several values for a setting the last one counts, and one that is not mentioned stays. */
  lemma {:induction false} LastValueCounts(s: Settings, wire: seq<u8>, num: nat)
    requires 1 <= num <= 6
    ensures Fold(s, wire)[num - 1] ==
            match LastValue(wire, num) case None => s[num - 1] case Some(v) => SetValue(s[num - 1], v)
    decreases |wire|
  {
    hide PairAt;
    if |wire| >= 6 {
      var (n, v) := PairAt(wire);
      LastValueCounts(Apply(s, n, v), wire[6..], num);
      if n == num && LastValue(wire[6..], num).Some? {
        SetTwice(s[num - 1], v, LastValue(wire[6..], num).value);
      }
    }
  }

  method ReadSettingsFrame(header: FrameHeader, reader: Reader) returns (r: Result<SettingsFrame, FrameError>)
    modifies reader
    ensures match SettingsIn(header, old(reader.rest))
            case Err(e) => r == Err(e)
            case Ok((frame, after)) => r == Ok(frame) && reader.rest == after
  {
    hide Bit, FromBE, Apply;
    if header.streamId != 0 {
      return Err(ProtocolError);
    }
    if Bit(header.flags, 0) {
      if header.frameLen != 0 {
        return Err(FrameSizeError);
      }
      return Ok(Ack);
    }
    if header.frameLen % 6 != 0 {
      return Err(FrameSizeError);
    }
    var settings: Settings := DEFAULTS;
    var read := 0;
    ghost var wire := reader.rest;
    while read < header.frameLen
      invariant 0 <= read <= header.frameLen && read % 6 == 0 && read <= |wire|
      invariant reader.rest == wire[read..]
      invariant settings == Fold(DEFAULTS, wire[..read])
    {
      var setting := ReadUint(2, reader);
      if setting.None? {
        return Err(Io);
      }
      var value := ReadUint(4, reader);
      if value.None? {
        return Err(Io);
      }
      PowersOf256();
      FoldNext(wire, read);
      read := read + 6;
      settings := Apply(settings, setting.value, value.value);
    }
    if ValueOf(settings, ENABLE_PUSH) != 0 && ValueOf(settings, ENABLE_PUSH) != 1 {
      return Err(ProtocolError);
    }
    if ValueOf(settings, INITIAL_WINDOW_SIZE) >= 0x8000_0000 {
      return Err(FlowControlError);
    }
    var frameSize := ValueOf(settings, MAX_FRAME_SIZE);
    if frameSize < 0x4000 || frameSize >= 0x100_0000 {
      return Err(ProtocolError);
    }
    return Ok(SettingsBody(settings));
  }

  /** One turn of the reading loop. */
  lemma FoldNext(wire: seq<u8>, read: nat)
    requires read % 6 == 0 && read + 6 <= |wire|
    ensures FromBE(wire[read..][2..][..4]) < TWO_32
    ensures Fold(DEFAULTS, wire[..read + 6])
         == Apply(Fold(DEFAULTS, wire[..read]), FromBE(wire[read..][..2]), FromBE(wire[read..][2..][..4]))
  {
    hide Apply, FromBE;
    PowersOf256();
    var pair := wire[read..read + 6];
    assert wire[..read + 6] == wire[..read] + pair;
    FoldConcat(DEFAULTS, wire[..read], pair);
    assert pair[..2] == wire[read..][..2];
    assert pair[2..6] == wire[read + 2..read + 6];
    assert wire[read..][2..] == wire[read + 2..];
    assert wire[read..][2..][..4] == wire[read + 2..read + 6];
    FoldOne(Fold(DEFAULTS, wire[..read]), pair);
  }

  lemma FoldOne(s: Settings, pair: seq<u8>)
    requires |pair| == 6
    ensures Fold(s, pair) == Apply(s, PairAt(pair).0, PairAt(pair).1)
  {
    hide Apply, PairAt;
    assert |pair[6..]| == 0;
  }

  // ---------- writing: the differences from the defaults ----------

  function PrintPair(s: Setting): (p: seq<u8>)
    ensures |p| == 6
  {
    ToBE(Num(s), 2) + ToBE(s.value, 4)
  }

  /** The pair of a setting that differs from the i-th default. */
  function Difference(s: Setting, i: nat): (wire: seq<u8>)
    ensures |wire| == 0 || |wire| == 6
  {
    if s != Default(i) then PrintPair(s) else []
  }

  /** The pairs of the settings from the i-th on that differ from the defaults. */
  function Differences(s: Settings, i: nat): (wire: seq<u8>)
    requires i <= 6
    ensures |wire| <= 36 - 6 * i
    decreases 6 - i
  {
    if i == 6 then [] else Difference(s[i], i) + Differences(s, i + 1)
  }

  lemma {:induction false} DifferencesWhole(s: Settings, i: nat)
    requires i <= 6
    ensures |Differences(s, i)| % 6 == 0
    decreases 6 - i
  {
    hide Difference;
    if i < 6 { DifferencesWhole(s, i + 1); }
  }

  function PrintSettings(frame: SettingsFrame): seq<u8> {
    match frame
    case Ack => PrintHeader(FrameHeader(0, 0, SETTINGS, ACK))
    case SettingsBody(s) => PrintHeader(FrameHeader(0, |Differences(s, 0)|, SETTINGS, 0)) + Differences(s, 0)
  }

  method WriteSettingsFrame(settings: SettingsFrame, writer: Writer) returns (written: nat)
    modifies writer
    ensures writer.written == old(writer.written) + PrintSettings(settings)
    ensures written == |PrintSettings(settings)|
  {
    hide PrintPair, PrintHeader, Default, Differences;
    if settings.Ack? {
      written := WriteHeader(FrameHeader(0, 0, SETTINGS, ACK), writer);
      return;
    }
    var buf := new u8[36](_ => 0);
    var len := PutDifferences(buf, settings.settings);
    written := WriteHeader(FrameHeader(0, len, SETTINGS, 0), writer);
    writer.WriteAll(buf[..len]);
    written := written + len;
  }

  /** The loop over the settings, which fills the front of the array. */
  method PutDifferences(buf: array<u8>, s: Settings) returns (len: nat)
    requires buf.Length == 36
    modifies buf
    ensures len <= 36 && buf[..len] == Differences(s, 0)
  {
    hide PrintPair, Default, Differences;
    len := 0;
    assert buf[..len] + Differences(s, 0) == Differences(s, 0);
    for i := 0 to 6
      invariant len <= 6 * i
      invariant buf[..len] + Differences(s, i) == Differences(s, 0)
    {
      DifferencesStep(s, i, buf[..len]);
      if s[i] != Default(i) {
        PutPair(buf, len, PrintPair(s[i]));
        len := len + 6;
      }
    }
    DifferencesEnd(s, buf[..len]);
  }

  /** `write_u16` and `write_u32` into what is left of the array. */
  method PutPair(buf: array<u8>, len: nat, pair: seq<u8>)
    requires |pair| == 6 && len + 6 <= buf.Length
    modifies buf
    ensures buf[..len + 6] == old(buf[..len]) + pair
  {
    forall k | 0 <= k < 6 {
      buf[len + k] := pair[k];
    }
  }

  lemma DifferencesStep(s: Settings, i: nat, done: seq<u8>)
    requires i < 6
    ensures s[i] != Default(i) ==> done + Differences(s, i) == done + PrintPair(s[i]) + Differences(s, i + 1)
    ensures s[i] == Default(i) ==> Differences(s, i) == Differences(s, i + 1)
  {
    hide PrintPair, Default;
  }

  lemma DifferencesEnd(s: Settings, done: seq<u8>)
    ensures done + Differences(s, 6) == done
  {
  }

  // ---------- round trip ----------

  /** Settings made from the defaults by setting values. */
  ghost predicate Reachable(s: Settings) {
    forall i :: 0 <= i < 6 ==> s[i] == Default(i) || s[i] == SetValue(Default(i), s[i].value)
  }

  /** Whatever is on the wire, and however values are set, settings stay of that form. */
  lemma {:induction false} FoldReachable(s: Settings, wire: seq<u8>)
    requires Reachable(s)
    ensures Reachable(Fold(s, wire))
    decreases |wire|
  {
    hide PairAt;
    if |wire| >= 6 {
      var (n, v) := PairAt(wire);
      if 1 <= n <= 6 { SetTwice(Default(n - 1), s[n - 1].value, v); }
      FoldReachable(Apply(s, n, v), wire[6..]);
    }
  }

  lemma NumberOf(i: nat, v: u32)
    requires i < 6
    ensures Num(Default(i)) == i + 1 && Num(SetValue(Default(i), v)) == i + 1
  {
    BitAsQuotient(Default(i).numFlags, 1);
    PowersOfTwo();
  }

  lemma PairRoundTrip(s: Setting)
    ensures PairAt(PrintPair(s)) == (Num(s), s.value)
  {
    hide ToBE, FromBE;
    PowersOf256();
    FromToBE(Num(s), 2);
    FromToBE(s.value, 4);
    assert PrintPair(s)[..2] == ToBE(Num(s), 2);
    assert PrintPair(s)[2..6] == ToBE(s.value, 4);
  }

  /** Reading the differences from the i-th setting on restores what comes after it. */
  lemma {:induction false} DifferencesRestore(s: Settings, i: nat)
    requires i <= 6 && Reachable(s)
    ensures Fold(s[..i] + DEFAULTS[i..], Differences(s, i)) == s
    decreases 6 - i
  {
    hide PrintPair, PairAt, Default, SetValue, Num, Fold, Apply, Differences;
    if i == 6 {
      FoldNothing(s);
      DifferencesEnd(s, []);
      assert s[..6] + DEFAULTS[6..] == s;
      assert [] + Differences(s, 6) == Differences(s, 6);
    } else {
      var partial: Settings := s[..i] + DEFAULTS[i..];
      DifferencesRestore(s, i + 1);
      DifferencesStep(s, i, []);
      assert [] + Differences(s, i) == Differences(s, i);
      assert partial[i] == Default(i);
      assert partial[i := s[i]] == s[..i + 1] + DEFAULTS[i + 1..];
      if s[i] != Default(i) {
        assert [] + PrintPair(s[i]) == PrintPair(s[i]);
        RestoreOne(partial, s, i);
        FoldConcat(partial, PrintPair(s[i]), Differences(s, i + 1));
      } else {
        assert partial[i := s[i]] == partial;
      }
    }
  }

  /** The pair of one setting restores it. */
  lemma RestoreOne(partial: Settings, s: Settings, i: nat)
    requires i < 6 && Reachable(s) && s[i] != Default(i) && partial[i] == Default(i)
    ensures Fold(partial, PrintPair(s[i])) == partial[i := s[i]]
  {
    hide PrintPair, PairAt, Default, SetValue, Num, Fold, Apply;
    NumberOf(i, s[i].value);
    PairRoundTrip(s[i]);
    FoldOne(partial, PrintPair(s[i]));
    ApplyAt(partial, i, s[i].value);
  }

  lemma ApplyAt(s: Settings, i: nat, v: u32)
    requires i < 6
    ensures Apply(s, i + 1, v) == s[i := SetValue(s[i], v)]
  {
  }

  lemma FoldNothing(s: Settings)
    ensures Fold(s, []) == s
  {
  }

  /** The body of a SETTINGS frame with a given header reads back, and so does an acknowledgement. */
  lemma SettingsRoundTrip(frame: SettingsFrame, rest: seq<u8>)
    requires frame.SettingsBody? ==> Reachable(frame.settings) && Verdict(frame.settings) == None
    ensures var body := if frame.Ack? then [] else Differences(frame.settings, 0);
            var h := FrameHeader(0, |body|, SETTINGS, if frame.Ack? then ACK else 0);
            && PrintSettings(frame) == PrintHeader(h) + body
            && SettingsIn(h, body + rest) == Ok((frame, rest))
  {
    hide PrintHeader, Differences, Verdict;
    BitAsQuotient(ACK, 0);
    ZeroBit(0);
    match frame
    case Ack =>
      assert [] + rest == rest;
    case SettingsBody(s) =>
      var body := Differences(s, 0);
      DifferencesWhole(s, 0);
      DifferencesRestore(s, 0);
      assert s[..0] + DEFAULTS[0..] == DEFAULTS;
      assert (body + rest)[..|body|] == body && (body + rest)[|body|..] == rest;
  }
}
