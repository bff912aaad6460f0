/** The Huffman coder of string literals (huffman.rs): the bit-by-bit encoder, the tree-walking
    decoder, and the size prediction, with what each computes in terms of code words. */
module Huffman {
  import opened Wrappers
  import opened Words
  import opened Buffers
  import opened HuffmanTables
  import opened HuffmanTheory

  datatype DecodeError = TooSmall | Overflow | FoundEOS | IncompleteData | IndexNotFound | TableTooSmall

  // ---------- what encoding and decoding mean ----------

  /** The number of one-bits that complete the last byte. */
  function PadLen(n: nat): (k: nat)
    ensures k < 8 && (n + k) % 8 == 0
  {
    (8 - n % 8) % 8
  }

  /** The code words of s, completed to whole bytes with one-bits. */
  function Encode(s: seq<u8>): seq<u8> {
    Pack(CodesOf(s) + Ones(PadLen(|CodesOf(s)|)))
  }

  lemma EncodeBits(s: seq<u8>)
    ensures BitsOf(Encode(s)) == CodesOf(s) + Ones(PadLen(|CodesOf(s)|))
    ensures |Encode(s)| == (|CodesOf(s)| + 7) / 8
  {
    BitsOfPack(CodesOf(s) + Ones(PadLen(|CodesOf(s)|)));
  }

  /** `bits` are the code words of s followed by k padding bits, too few for an EOS. */
  ghost predicate Decodes(bits: seq<bool>, s: seq<u8>, k: nat) {
    k < 30 && bits == CodesOf(s) + Ones(k)
  }

  /** The first n bits are the code words of s and then the EOS code word. */
  ghost predicate EosAfter(bits: seq<bool>, s: seq<u8>, n: nat) {
    n <= |bits| && bits[..n] == CodesOf(s) + Code(EOS)
  }

  ghost function Decode(data: seq<u8>): Result<seq<u8>, DecodeError> {
    var bits := BitsOf(data);
    if exists s, k :: Decodes(bits, s, k) then
      var s, k :| Decodes(bits, s, k);
      Ok(s)
    else if exists s, n :: EosAfter(bits, s, n) then Err(FoundEOS)
    else Err(IncompleteData)
  }

  lemma DecodesUnique(bits: seq<bool>, s: seq<u8>, k: nat, t: seq<u8>, m: nat)
    requires Decodes(bits, s, k) && Decodes(bits, t, m)
    ensures s == t && k == m
  {
    OnesIncomplete(k);
    OnesIncomplete(m);
    ParseUnique(s, Ones(k), t, Ones(m));
  }

  /** A string of bytes with an incomplete rest has no EOS in it. */
  lemma NoEosInside(bits: seq<bool>, s: seq<u8>, p: seq<bool>, t: seq<u8>, n: nat)
    requires bits == CodesOf(s) + p && Incomplete(p)
    ensures !EosAfter(bits, t, n)
  {
    assert |t| < |s| ==> s[|t|] < EOS;
    if EosAfter(bits, t, n) {
      var b: seq<Symbol> := t + [EOS];
      assert b[|t|] == EOS;
      CodesOfSnoc(t, EOS);
      assert bits == CodesOf(b) + bits[n..];
      ParsePrefix(s, p, b, bits[n..]);
      assert false;
    }
  }

  /** Decoding, characterised exactly: the result is s iff the bits are the code words of s and
      fewer than 30 one-bits, it is FoundEOS iff some prefix of the bits is code words and then
      EOS, and it is IncompleteData in all other cases. */
  lemma DecodeCharacterised(data: seq<u8>)
    ensures forall s :: Decode(data) == Ok(s) <==> exists k :: Decodes(BitsOf(data), s, k)
    ensures Decode(data) == Err(FoundEOS) <==> exists s, n :: EosAfter(BitsOf(data), s, n)
    ensures Decode(data).Ok? || Decode(data).error in {FoundEOS, IncompleteData}
  {
    var bits := BitsOf(data);
    forall s, k, t, m | Decodes(bits, s, k) && Decodes(bits, t, m)
      ensures s == t
    {
      DecodesUnique(bits, s, k, t, m);
    }
    forall s, k, t, n | Decodes(bits, s, k)
      ensures !EosAfter(bits, t, n)
    {
      OnesIncomplete(k);
      NoEosInside(bits, s, Ones(k), t, n);
    }
  }

  // ---------- round trips ----------

  lemma DecodeEncode(s: seq<u8>)
    ensures Decode(Encode(s)) == Ok(s)
  {
    EncodeBits(s);
    DecodeCharacterised(Encode(s));
    assert Decodes(BitsOf(Encode(s)), s, PadLen(|CodesOf(s)|));
  }

  /** A decoded string encodes to the bytes it came from exactly when these were padded with fewer
      than 8 bits, as section 5.2 of RFC 7541 demands of encoders and this decoder does not check. */
  lemma EncodeDecode(data: seq<u8>, s: seq<u8>)
    requires Decode(data) == Ok(s)
    ensures |CodesOf(s)| <= 8 * |data| < |CodesOf(s)| + 30
    ensures Encode(s) == data <==> 8 * |data| - |CodesOf(s)| < 8
  {
    hide Encode, Pack, BitsOf, CodesOf, Decode;
    DecodeCharacterised(data);
    var k :| Decodes(BitsOf(data), s, k);
    EncodeBits(s);
    assert 8 * |data| == |CodesOf(s)| + k;
    if k < 8 {
      PadLenUnique(|CodesOf(s)|, k);
      BitsOfInjective(Encode(s), data);
    }
  }

  lemma PadLenUnique(n: nat, k: nat)
    requires k < 8 && (n + k) % 8 == 0
    ensures k == PadLen(n)
  {
  }

  /** The decoder takes padding of up to 29 one-bits, where the standard allows 7, but never 30. */
  lemma LongPaddingDecodes(s: seq<u8>, k: nat, data: seq<u8>)
    requires BitsOf(data) == CodesOf(s) + Ones(k)
    ensures Decode(data) == Ok(s) <==> k < 30
    ensures k >= 30 ==> Decode(data) == Err(FoundEOS)
  {
    DecodeCharacterised(data);
    if k < 30 {
      assert Decodes(BitsOf(data), s, k);
    } else {
      EosCode();
      assert (CodesOf(s) + Ones(k))[..|CodesOf(s)| + 30] == CodesOf(s) + Code(EOS);
      assert EosAfter(BitsOf(data), s, |CodesOf(s)| + 30);
    }
  }

  /** A whole byte of padding passes, which section 5.2 of RFC 7541 wants treated as an error. */
  lemma PaddingByteAccepted()
    ensures Decode([0xFF]) == Ok([])
  {
    forall i | 0 <= i < 8
      ensures BitsOf([0xFF])[i]
    {
      MaskBit(8, 7 - i);
    }
    PowersOfTwo();
    assert BitsOf([0xFF]) == CodesOf([]) + Ones(8);
    LongPaddingDecodes([], 8, [0xFF]);
  }

  // ---------- decode_bytes ----------

  /** The decoder's position: the bits read so far are whole code words and then a path to `index`;
      `allOnes` is None at the root and otherwise tells whether that path is all ones. */
  ghost predicate Position(read: seq<bool>, out: seq<u8>, pending: seq<bool>, index: nat, allOnes: Option<bool>) {
    && read == CodesOf(out) + pending
    && index < NODES && !IsLeaf(index)
    && Walk(0, pending) == Some(index)
    && (allOnes.None? <==> pending == [])
    && (allOnes.Some? ==> (allOnes.value <==> pending == Ones(|pending|)))
  }

  lemma PositionAtStart()
    ensures Position([], [], [], 0, None)
  {
    RootIncomplete();
  }

  /** The tree and the path after one more bit. */
  lemma PositionStep(read: seq<bool>, out: seq<u8>, pending: seq<bool>, index: nat, allOnes: Option<bool>, bit: bool)
    requires Position(read, out, pending, index, allOnes)
    ensures Step(index, bit) < NODES
    ensures Walk(0, pending + [bit]) == Some(Step(index, bit))
    ensures read + [bit] == CodesOf(out) + (pending + [bit])
    ensures pending + [bit] == Ones(|pending| + 1) <==> bit && pending == Ones(|pending|)
  {
    hide TreeList, CodesOf;
    TreeWellFormed(index);
    WalkConcat(0, pending, [bit]);
    WalkCons(index, bit, []);
    assert [bit] + [] == [bit];
    if pending + [bit] == Ones(|pending| + 1) {
      assert pending == (pending + [bit])[..|pending|] == Ones(|pending| + 1)[..|pending|] == Ones(|pending|);
      assert bit == (pending + [bit])[|pending|];
    }
  }

  /** A bit that reaches a branch extends the path; a bit that reaches a leaf completes a code word. */
  lemma PositionNext(read: seq<bool>, out: seq<u8>, pending: seq<bool>, index: nat, allOnes: Option<bool>, bit: bool)
    requires Position(read, out, pending, index, allOnes)
    ensures index < NODES && Step(index, bit) < NODES
    ensures !IsLeaf(Step(index, bit)) ==>
              Position(read + [bit], out, pending + [bit], Step(index, bit),
                       Some(bit && (allOnes.None? || allOnes.value)))
    ensures IsLeaf(Step(index, bit)) ==>
              var symbol := TreeList(Step(index, bit)).right;
              && symbol < SYMBOLS
              && read + [bit] == CodesOf(out) + Code(symbol)
              && (symbol < EOS ==> Position(read + [bit], out + [symbol], [], 0, None))
  {
    hide TreeList, CodesOf;
    PositionStep(read, out, pending, index, allOnes, bit);
    var next := Step(index, bit);
    if IsLeaf(next) {
      LeafIsCode(pending + [bit], next);
      var symbol := TreeList(next).right;
      if symbol < EOS {
        CodesOfSnoc(out, symbol);
        RootIncomplete();
        assert CodesOf(out + [symbol]) + [] == CodesOf(out + [symbol]);
      }
    } else if pending == [] {
      assert pending == Ones(0);
    }
  }

  /** The bit that the decoder looks at. */
  lemma NextBit(data: seq<u8>, n: nat, off: nat)
    requires n < |data| && off < 8
    ensures BitsOf(data)[..8 * n + (8 - off)] == BitsOf(data)[..8 * n + (7 - off)] + [Bit(data[n], off)]
  {
    assert BitsOf(data)[8 * n + (7 - off)] == Bit(data[n], off);
  }

  method DecodeBytes(data: seq<u8>, out: Buffer) returns (r: Result<(), DecodeError>)
    requires out.Valid()
    modifies out.Repr()
    ensures out.Valid() && fresh(out.Repr() - old(out.Repr()))
    ensures r.Ok? ==> Decode(data) == Ok(out.Contents())
    ensures r.Err? ==> Decode(data) == Err(r.error)
  {
    hide TreeList, Walk, CodesOf, Code, Decode, Decodes, Position, BitsOf;
    var index := 0;
    var allOnes: Option<bool> := None;
    ghost var pending: seq<bool> := [];
    ghost var bits := BitsOf(data);
    out.Clear();
    PositionAtStart();

    for n := 0 to |data|
      invariant out.Valid() && fresh(out.Repr() - old(out.Repr()))
      invariant Position(bits[..8 * n], out.Contents(), pending, index, allOnes)
    {
      var v := data[n];
      var off := 8;
      while off > 0
        invariant 0 <= off <= 8
        invariant out.Valid() && fresh(out.Repr() - old(out.Repr()))
        invariant Position(bits[..8 * n + (8 - off)], out.Contents(), pending, index, allOnes)
      {
        off := off - 1;
        var bit := Bit(v, off);
        NextBit(data, n, off);
        PositionNext(bits[..8 * n + (7 - off)], out.Contents(), pending, index, allOnes, bit);

        var node := TreeList(index);
        if bit {
          if allOnes.None? {
            allOnes := Some(true);
          }
          index := node.right;
        } else {
          allOnes := Some(false);
          index := node.left;
        }
        pending := pending + [bit];

        node := TreeList(index);
        if node.left == 0 {
          if node.right == EOS {
            EosFound(data, out.Contents(), 8 * n + (8 - off));
            return Err(FoundEOS);
          }
          out.Push(node.right);
          index := 0;
          allOnes := None;
          pending := [];
        }
      }
    }

    assert bits[..8 * |data|] == bits;
    EndOfInput(data, out.Contents(), pending, index, allOnes);
    if allOnes.Some? && !allOnes.value {
      return Err(IncompleteData);
    }
    return Ok(());
  }

  lemma EosFound(data: seq<u8>, s: seq<u8>, n: nat)
    requires EosAfter(BitsOf(data), s, n)
    ensures Decode(data) == Err(FoundEOS)
  {
    DecodeCharacterised(data);
  }

  /** At the end of the input the flag tells padding from a broken code word. */
  lemma EndOfInput(data: seq<u8>, out: seq<u8>, pending: seq<bool>, index: nat, allOnes: Option<bool>)
    requires Position(BitsOf(data), out, pending, index, allOnes)
    ensures Decode(data) == if allOnes.Some? && !allOnes.value then Err(IncompleteData) else Ok(out)
  {
    hide BitsOf, CodesOf, TreeList, Walk;
    DecodeCharacterised(data);
    if allOnes.Some? && !allOnes.value {
      NotPadding(BitsOf(data), out, pending, index, allOnes);
    } else {
      assert pending == Ones(|pending|);
      PathIncomplete(pending, index);
      IncompleteOnes(|pending|);
      assert Decodes(BitsOf(data), out, |pending|);
    }
  }

  lemma PathIncomplete(pending: seq<bool>, index: nat)
    requires Walk(0, pending) == Some(index) && index < NODES && !IsLeaf(index)
    ensures Incomplete(pending)
  {
  }

  /** Input that ends inside a code word, and not in padding, decodes to nothing. */
  lemma NotPadding(bits: seq<bool>, out: seq<u8>, pending: seq<bool>, index: nat, allOnes: Option<bool>)
    requires Position(bits, out, pending, index, allOnes) && pending != Ones(|pending|)
    ensures forall s, k :: !Decodes(bits, s, k)
    ensures forall s, n :: !EosAfter(bits, s, n)
  {
    hide CodesOf, TreeList;
    forall s: seq<u8>, k
      ensures !Decodes(bits, s, k)
    {
      if Decodes(bits, s, k) {
        OnesIncomplete(k);
        ParseUnique(out, pending, s, Ones(k));
      }
    }
    forall s: seq<u8>, n
      ensures !EosAfter(bits, s, n)
    {
      NoEosInside(bits, out, pending, s, n);
    }
  }

  // ---------- encode_bytes ----------

  /** The encoder's state after the bits `done`: they fill the bytes of `out` from the front, the
      last byte is zero where nothing has been written, and `offset` is the next bit of it. */
  ghost predicate Filled(out: seq<u8>, done: seq<bool>, offset: nat) {
    && offset == 7 - |done| % 8
    && |out| == (|done| + 7) / 8
    && forall i :: 0 <= i < 8 * |out| ==> (BitsOf(out)[i] <==> i < |done| && done[i])
  }

  /** What `|=` does to the bits of the last byte. */
  lemma OrLast(out: seq<u8>, x: u8)
    requires out != []
    ensures Or(out[|out| - 1], x) < 0x100
    ensures var next := out[|out| - 1 := Or(out[|out| - 1], x)];
            forall i :: 0 <= i < 8 * |out| ==>
              (BitsOf(next)[i] <==> BitsOf(out)[i] || (i >= 8 * |out| - 8 && Bit(x, 7 - i % 8)))
  {
    var last := out[|out| - 1];
    assert Pow2(8) == 0x100;
    OrBound(last, x, 8);
    var next := out[|out| - 1 := Or(last, x)];
    forall i | 0 <= i < 8 * |out|
      ensures BitsOf(next)[i] <==> BitsOf(out)[i] || (i >= 8 * |out| - 8 && Bit(x, 7 - i % 8))
    {
      if i >= 8 * |out| - 8 {
        assert i / 8 == |out| - 1;
        OrBit(last, x, 7 - i % 8);
      }
    }
  }

  /** A zero byte is opened when the last one is full. */
  lemma OpenByte(out: seq<u8>, done: seq<bool>)
    requires Filled(out, done, 7)
    ensures forall i :: 0 <= i < 8 * |out + [0]| ==> (BitsOf(out + [0])[i] <==> i < |done| && done[i])
  {
    BitsOfConcat(out, [0]);
    forall i | 0 <= i < 8
      ensures !BitsOf([0])[i]
    {
      ZeroBit(7 - i);
    }
  }

  /** One bit written into the open byte. */
  lemma WriteBit(out: seq<u8>, done: seq<bool>, offset: nat, bit: bool)
    requires |out| == |done| / 8 + 1 && offset == 7 - |done| % 8
    requires forall i :: 0 <= i < 8 * |out| ==> (BitsOf(out)[i] <==> i < |done| && done[i])
    ensures Pow2(offset) <= 128
    ensures var x := if bit then Pow2(offset) else 0;
            Or(out[|out| - 1], x) < 0x100 &&
            Filled(out[|out| - 1 := Or(out[|out| - 1], x)], done + [bit], (offset + 255) % 0x100 % 8)
  {
    Pow2Small(offset);
    var x := if bit then Pow2(offset) else 0;
    OrLast(out, x);
    var next := out[|out| - 1 := Or(out[|out| - 1], x)];
    forall i | 0 <= i < 8 * |next|
      ensures BitsOf(next)[i] <==> i < |done + [bit]| && (done + [bit])[i]
    {
      ZeroBit(7 - i % 8);
      Pow2Bit(offset, 7 - i % 8);
      assert i >= 8 * |out| - 8 ==> (7 - i % 8 == offset <==> i == |done|);
    }
  }

  lemma Pow2Small(k: nat)
    requires k <= 8
    ensures k < 8 ==> Pow2(k) <= 128
    ensures Pow2(k) <= 256
  {
    if k < 8 {
      Pow2Add(k, 7 - k);
      assert Pow2(7) == 128;
      assert Pow2(k) * Pow2(7 - k) >= Pow2(k) * 1;
    } else {
      assert Pow2(8) == 256;
    }
  }

  /** The last byte completed with one-bits. */
  lemma WritePadding(out: seq<u8>, done: seq<bool>, offset: nat)
    requires Filled(out, done, offset) && offset != 7
    ensures Pow2(offset + 1) - 1 < 0x100 && out != []
    ensures Or(out[|out| - 1], Pow2(offset + 1) - 1) < 0x100
    ensures BitsOf(out[|out| - 1 := Or(out[|out| - 1], Pow2(offset + 1) - 1)]) == done + Ones(PadLen(|done|))
  {
    hide Pow2, Or, Bit, BitsOf;
    Pow2Small(offset + 1);
    var x := Pow2(offset + 1) - 1;
    OrLast(out, x);
    var next := out[|out| - 1 := Or(out[|out| - 1], x)];
    assert |BitsOf(next)| == 8 * |out| == |done + Ones(PadLen(|done|))|;
    forall i | 0 <= i < 8 * |out|
      ensures BitsOf(next)[i] == (done + Ones(PadLen(|done|)))[i]
    {
      MaskBit(offset + 1, 7 - i % 8);
      assert i >= |done| ==> i >= 8 * |out| - 8 && 7 - i % 8 < offset + 1;
    }
  }

  /** One step of the encoder: open a byte if the last one is full, and write the bit. */
  lemma EncodeStep(out: seq<u8>, done: seq<bool>, offset: nat, bit: bool)
    requires Filled(out, done, offset)
    ensures var ready: seq<u8> := if offset == 7 then out + [0] else out;
            var x := (if bit then 1 else 0) * Pow2(offset);
            && ready != []
            && x < 0x100
            && Or(ready[|ready| - 1], x) < 0x100
            && Filled(ready[|ready| - 1 := Or(ready[|ready| - 1], x)], done + [bit], (offset + 255) % 0x100 % 8)
  {
    if offset == 7 {
      OpenByte(out, done);
      WriteBit(out + [0], done, offset, bit);
    } else {
      WriteBit(out, done, offset, bit);
    }
  }

  lemma NextCodeBit(s: Symbol, i: nat)
    requires i < HuffmanCodeLen(s)
    ensures Code(s)[..|Code(s)| - i] == Code(s)[..|Code(s)| - i - 1] + [Bit(HuffmanCode(s), i)]
  {
  }

  lemma EncodeDone(data: seq<u8>, out: seq<u8>)
    requires BitsOf(out) == CodesOf(data) + Ones(PadLen(|CodesOf(data)|))
    ensures out == Encode(data)
  {
    hide CodesOf, Encode;
    EncodeBits(data);
    BitsOfInjective(out, Encode(data));
  }

  lemma FilledExactly(out: seq<u8>, done: seq<bool>)
    requires Filled(out, done, 7)
    ensures BitsOf(out) == done + Ones(PadLen(|done|))
  {
    assert |BitsOf(out)| == |done|;
  }

  /** The inner loop of `encode_bytes`: writes the code word of one byte from bit `offset` on. */
  method EncodeSymbol(index: u8, start: nat, out: Buffer, ghost done: seq<bool>) returns (offset: nat)
    requires out.Valid() && Filled(out.Contents(), done, start)
    modifies out.Repr()
    ensures out.Valid() && fresh(out.Repr() - old(out.Repr()))
    ensures Filled(out.Contents(), done + Code(index), offset)
  {
    hide HuffmanCode, HuffmanCodeLen, Code, Filled, BitsOf, Or, Pow2, Bit;
    offset := start;
    ghost var word := Code(index);
    var i := HuffmanCodeLen(index);
    assert done + word[..0] == done;
    while i > 0
      invariant 0 <= i <= HuffmanCodeLen(index)
      invariant out.Valid() && fresh(out.Repr() - old(out.Repr()))
      invariant Filled(out.Contents(), done + word[..|word| - i], offset)
    {
      i := i - 1;
      var bit := if Bit(HuffmanCode(index), i) then 1 else 0;
      NextCodeBit(index, i);
      EncodeStep(out.Contents(), done + word[..|word| - i - 1], offset, bit == 1);
      if offset == 7 {
        out.Push(0);
      }
      out.OrLast(bit * Pow2(offset));
      offset := (offset + 255) % 0x100 % 8;
      assert done + word[..|word| - i] == done + word[..|word| - i - 1] + [bit == 1];
    }
    assert word[..|word|] == word;
  }

  method EncodeBytes(data: seq<u8>, out: Buffer)
    requires out.Valid()
    modifies out.Repr()
    ensures out.Valid() && fresh(out.Repr() - old(out.Repr()))
    ensures out.Contents() == Encode(data)
  {
    hide HuffmanCode, HuffmanCodeLen, Encode, Code, CodesOf, Filled, BitsOf, Or, Pow2;
    var offset: nat := 7;
    out.Clear();
    NothingFilled();
    assert data[..0] == [];

    for n := 0 to |data|
      invariant out.Valid() && fresh(out.Repr() - old(out.Repr()))
      invariant Filled(out.Contents(), CodesOf(data[..n]), offset)
    {
      offset := EncodeSymbol(data[n], offset, out, CodesOf(data[..n]));
      assert data[..n + 1] == data[..n] + [data[n]];
      CodesOfSnoc(data[..n], data[n]);
    }

    assert data[..|data|] == data;
    if offset != 7 {
      WritePadding(out.Contents(), CodesOf(data), offset);
      out.OrLast(Pow2(offset + 1) - 1);
    } else {
      FilledExactly(out.Contents(), CodesOf(data));
    }
    EncodeDone(data, out.Contents());
  }

  lemma NothingFilled()
    ensures CodesOf([]) == [] && Filled([], [], 7)
  {
  }

  // ---------- get_size ----------

  /** The length `get_size` announces for an encoding; it sums the code lengths in 32 bits. */
  function PredictedSize(s: seq<u8>): nat {
    (|CodesOf(s)| % TWO_32 + 7) / 8
  }

  method GetSize(data: seq<u8>) returns (size: nat)
    ensures size == PredictedSize(data)
  {
    hide HuffmanCodeLen, CodesOf, Code;
    NothingFilled();
    assert data[..0] == [];
    var total: u32 := 0;
    for n := 0 to |data|
      invariant total == |CodesOf(data[..n])| % TWO_32
    {
      total := (total + HuffmanCodeLen(data[n])) % TWO_32;
      assert data[..n + 1] == data[..n] + [data[n]];
      CodesOfSnoc(data[..n], data[n]);
    }
    assert data[..|data|] == data;
    var rem := total % 8;
    size := total / 8;
    size := size + (if rem > 0 then 1 else 0);
  }

  /** The prediction is right exactly when the code lengths add up within 32 bits. */
  lemma PredictionExact(data: seq<u8>)
    ensures PredictedSize(data) == |Encode(data)| <==> |CodesOf(data)| < TWO_32
  {
    hide Encode, CodesOf;
    EncodeBits(data);
    var n, wrapped := |CodesOf(data)|, |CodesOf(data)| % TWO_32;
    if n >= TWO_32 {
      assert wrapped <= n - TWO_32;
    }
  }

  /** n ampersands, whose code word has 8 bits. */
  function Ampersands(n: nat): (s: seq<u8>)
    ensures |s| == n
  {
    seq(n, _ => 38)
  }

  lemma {:induction false} AmpersandCodes(n: nat)
    ensures |CodesOf(Ampersands(n))| == 8 * n
  {
    if n > 0 {
      hide CodesOf, Code;
      AmpersandCodes(n - 1);
      assert Ampersands(n) == Ampersands(n - 1) + [38];
      CodesOfSnoc(Ampersands(n - 1), 38);
      AmpersandCode();
    }
  }

  lemma AmpersandCode()
    ensures |Code(38)| == 8
  {
  }

  /** The prediction does go wrong: for 2^29 ampersands it wraps around to 0, though their encoding
      is as long as they are. */
  lemma PredictionWraps()
    ensures var s := Ampersands(0x2000_0000); PredictedSize(s) == 0 && |Encode(s)| == |s|
  {
    hide Encode, CodesOf, Ampersands;
    var s := Ampersands(0x2000_0000);
    AmpersandCodes(0x2000_0000);
    EncodeBits(s);
  }
}
