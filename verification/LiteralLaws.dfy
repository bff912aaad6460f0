/** Round trips of string literals, and how integers and strings behave when input arrives in pieces. */
module LiteralLaws {
  import opened Wrappers
  import opened Words
  import opened HuffmanTheory
  import opened Huffman
  import opened Literal

  // ---------- strings: round trips ----------

  lemma TopBit(v: u8)
    ensures Bit(v, 7) <==> v / 128 == 1
  {
    hide Bit;
    BitAsQuotient(v, 7);
    PowersOfTwo();
  }

  lemma HuffmanFlag(prefix: u8, n: nat)
    requires prefix < 2
    ensures Bit(PrintInteger(prefix, 7, n)[0], 7) <==> prefix == 1
  {
    hide PrintInteger;
    PrefixBits(prefix, 7, n);
    PowersOfTwo();
    TopBit(PrintInteger(prefix, 7, n)[0]);
  }

  /** A literal as section 5.2 of RFC 7541 lays it out: flag and length, then the payload. */
  function Framed(huffman: bool, payload: seq<u8>): seq<u8> {
    PrintInteger(if huffman then 1 else 0, 7, |payload|) + payload
  }

  /** What the parser makes of an announced length: it takes that many bytes, whatever follows. */
  lemma StringFramed(huffman: bool, announced: u64, body: seq<u8>)
    requires announced <= |body|
    ensures var printed := PrintInteger(if huffman then 1 else 0, 7, announced);
            var payload := body[..announced];
            StringAt(printed + body) ==
            if huffman then
              match Decode(payload) case Err(e) => Err(e) case Ok(s) => Ok((s, |printed| + announced))
            else Ok((payload, |printed| + announced))
  {
    hide PrintInteger, Decode, IntegerAt, Bit;
    var prefix := if huffman then 1 else 0;
    var printed := PrintInteger(prefix, 7, announced);
    IntegerRoundTrip(prefix, 7, announced, body);
    HuffmanFlag(prefix, announced);
    assert (printed + body)[0] == printed[0];
    assert (printed + body)[|printed|..|printed| + announced] == body[..announced];
  }

  /** Either form of a string literal parses to the string and its printed length. */
  lemma FramedRoundTrip(huffman: bool, s: seq<u8>, rest: seq<u8>)
    requires var payload := if huffman then Encode(s) else s; |payload| < TWO_64
    ensures var printed := Framed(huffman, if huffman then Encode(s) else s);
            StringAt(printed + rest) == Ok((s, |printed|))
  {
    hide PrintInteger, Decode, Encode, StringAt;
    var payload := if huffman then Encode(s) else s;
    StringFramed(huffman, |payload|, payload + rest);
    assert (payload + rest)[..|payload|] == payload;
    assert Framed(huffman, payload) + rest == PrintInteger(if huffman then 1 else 0, 7, |payload|) + (payload + rest);
    DecodeEncode(s);
  }

  /** The writer, given the parser's width, is undone by the parser exactly when it does not announce
      a wrapped 32-bit size: the plain branch always round trips, the Huffman branch when the code
      lengths add up within 32 bits. */
  lemma StringRoundTrip(s: seq<u8>, rest: seq<u8>)
    requires |s| < TWO_64
    ensures StringAt(PrintString(7, s) + rest) == Ok((s, |PrintString(7, s)|)) <==>
            PredictedSize(s) >= |s| || |CodesOf(s)| < TWO_32
  {
    hide PrintInteger, Decode, Encode, StringAt, PredictedSize, CodesOf;
    PredictionExact(s);
    if PredictedSize(s) >= |s| {
      FramedRoundTrip(false, s, rest);
    } else if |CodesOf(s)| < TWO_32 {
      FramedRoundTrip(true, s, rest);
    } else {
      PredictionShort(s);
      var size := PredictedSize(s);
      StringFramed(true, size, Encode(s) + rest);
      assert PrintString(7, s) + rest == PrintInteger(1, 7, size) + (Encode(s) + rest);
    }
  }

  /** A string that is announced as empty though it is not, and so does not come back. */
  lemma WrappedSizeMismatch(rest: seq<u8>)
    ensures var s := Ampersands(0x2000_0000);
            StringAt(PrintString(7, s) + rest) != Ok((s, |PrintString(7, s)|))
  {
    hide PrintString, StringAt, PredictedSize, CodesOf, Encode, Ampersands;
    var s := Ampersands(0x2000_0000);
    PredictionWraps();
    AmpersandCodes(0x2000_0000);
    StringRoundTrip(s, rest);
  }

  lemma PredictionShort(s: seq<u8>)
    ensures PredictedSize(s) <= |Encode(s)|
  {
    hide CodesOf, Encode;
    EncodeBits(s);
    assert |CodesOf(s)| % TWO_32 <= |CodesOf(s)|;
  }

  /** As the program calls it, with prefix width 1, the writer is undone by the parser for the
      empty string and for no other. */
  lemma WrittenWidthMismatch(s: seq<u8>, rest: seq<u8>)
    requires |s| < TWO_64
    ensures StringAt(PrintString(WRITTEN_WIDTH, s) + rest) == Ok((s, |PrintString(WRITTEN_WIDTH, s)|)) <==> s == []
  {
    hide Encode, Decode, PredictedSize, CodesOf, Terminator;
    PowersOfTwo();
    PredictionShort(s);
    NonEmptyCodes(s);
    var printed := PrintString(WRITTEN_WIDTH, s);
    var data := printed + rest;
    if s == [] {
      EmptyPrediction();
      assert printed == [0];
      TopBit(0);
      assert data[1..1] == [];
    } else {
      var size := if PredictedSize(s) < |s| then PredictedSize(s) else |s|;
      var flag := if PredictedSize(s) < |s| then 2 else 0;
      assert data[0] == flag + (if size < 1 then 0 else 1);
      TopBit(data[0]);
      assert IntegerAt(7, data) == Ok((data[0], 1));
      if StringAt(data) == Ok((s, |printed|)) {
        assert s == data[1..1 + data[0]];
        assert |printed| == 1 + data[0] <= 4;
        ShortExact(s);
        assert size >= 1;
        assert |printed| == 1 + |Groups(size - 1)| + (if flag == 2 then |Encode(s)| else |s|);
        assert flag == 2 && size == |Encode(s)| == 2;
        assert s[0] == data[1] == printed[1] == Groups(1)[0] == 1;
        LongCode(s);
        assert false;
      }
    }
  }

  lemma EmptyPrediction()
    ensures PredictedSize([]) == 0
  {
  }

  /** A string that is not empty has a code word, and an encoding. */
  lemma NonEmptyCodes(s: seq<u8>)
    ensures s != [] ==> Encode(s) != []
  {
    if s != [] {
      CodeNonEmpty(s[0]);
      EncodeBits(s);
    }
  }

  lemma ShortExact(s: seq<u8>)
    requires |Encode(s)| <= 3
    ensures PredictedSize(s) == |Encode(s)|
  {
    hide CodesOf, Encode;
    EncodeBits(s);
  }

  /** Two bytes do not hold the 23-bit code word of the byte 1. */
  lemma LongCode(s: seq<u8>)
    requires |Encode(s)| <= 2 && s != []
    ensures s[0] != 1
  {
    EncodeBits(s);
    assert |Code(1)| == 23;
    assert CodesOf(s) == Code(s[0]) + CodesOf(s[1..]);
  }

  // ---------- input in pieces ----------

  /** Any verdict on an integer other than TooSmall is final. */
  lemma IntegerStable(bits: nat, data: seq<u8>, more: seq<u8>)
    requires IntegerAt(bits, data) != Err(TooSmall)
    ensures IntegerAt(bits, data + more) == IntegerAt(bits, data)
  {
    hide Pow2, GroupSum, Terminator;
    var whole := data + more;
    var tail := data[1..if |data| > 1 + MAX_GROUPS then 1 + MAX_GROUPS else |data|];
    var longer := whole[1..if |whole| > 1 + MAX_GROUPS then 1 + MAX_GROUPS else |whole|];
    assert forall i :: 0 <= i < |tail| ==> tail[i] == longer[i];
    match Terminator(tail)
    case Some(n) =>
      assert longer[n - 1] < 128;
      assert Terminator(longer) == Some(n);
      assert longer[..n] == tail[..n];
    case None =>
      assert tail == longer || data[0] % Pow2(bits) < Pow2(bits) - 1;
  }

  /** Every proper prefix of an integer is TooSmall. */
  lemma IntegerPrefix(bits: nat, data: seq<u8>, k: nat)
    requires IntegerAt(bits, data).Ok? && k < IntegerAt(bits, data).value.1
    ensures IntegerAt(bits, data[..k]) == Err(TooSmall)
  {
    hide Pow2, GroupSum, Terminator;
    if k > 0 {
      var tail := data[1..if |data| > 1 + MAX_GROUPS then 1 + MAX_GROUPS else |data|];
      var shorter := data[..k][1..];
      assert forall i :: 0 <= i < |shorter| ==> shorter[i] == tail[i];
      assert Terminator(shorter).None?;
    }
  }

  /** Any verdict on a string literal other than TooSmall is final. */
  lemma StringStable(data: seq<u8>, more: seq<u8>)
    requires StringAt(data) != Err(TooSmall)
    ensures StringAt(data + more) == StringAt(data)
  {
    hide IntegerAt, Decode, Bit;
    IntegerStable(7, data, more);
    IntegerSize(7, data);
    if IntegerAt(7, data).Ok? {
      var (len, parsed) := IntegerAt(7, data).value;
      assert (data + more)[parsed..parsed + len] == data[parsed..parsed + len];
    }
  }

  lemma StringSize(data: seq<u8>)
    ensures StringAt(data).Ok? ==> 1 <= StringAt(data).value.1 <= |data|
  {
    hide IntegerAt, Decode, Bit;
    IntegerSize(7, data);
  }

  /** Every proper prefix of a string literal is TooSmall. */
  lemma StringPrefix(data: seq<u8>, k: nat)
    requires StringAt(data).Ok? && k < StringAt(data).value.1
    ensures StringAt(data[..k]) == Err(TooSmall)
  {
    hide IntegerAt, Decode, Bit;
    var (len, parsed) := IntegerAt(7, data).value;
    IntegerSize(7, data);
    if k < parsed {
      IntegerPrefix(7, data, k);
    } else if IntegerAt(7, data[..k]) == Err(TooSmall) {
    } else {
      IntegerStable(7, data[..k], data[k..]);
      assert data[..k] + data[k..] == data;
    }
  }
}
