/** What a header block decoder refuses: every error of an integer, a string literal and a
    representation, with the input that leads to it. */
module HeaderErrors {
  import opened Wrappers
  import opened Arithmetic
  import opened Words
  import opened Huffman
  import opened Literal
  import opened LiteralLaws
  import opened Tables
  import opened HeaderDecoder
  import opened HeaderLaws

  // ---------- integers ----------

  /** A prefix of all ones and ten bytes behind it that all ask for more. */
  predicate OverLong(bits: nat, data: seq<u8>) {
    |data| >= 11 && data[0] % Pow2(bits) == Pow2(bits) - 1 && forall i :: 1 <= i <= 10 ==> data[i] >= 128
  }

  /** A prefix of all ones and too few bytes behind it, which all ask for more. */
  predicate CutShort(bits: nat, data: seq<u8>) {
    || data == []
    || (|data| < 11 && data[0] % Pow2(bits) == Pow2(bits) - 1 && forall i :: 1 <= i < |data| ==> data[i] >= 128)
  }

  /** An integer is refused in these two cases only. */
  lemma IntegerErrors(bits: nat, data: seq<u8>)
    ensures IntegerAt(bits, data) == Err(Overflow) <==> OverLong(bits, data)
    ensures IntegerAt(bits, data) == Err(TooSmall) <==> CutShort(bits, data)
    ensures IntegerAt(bits, data).Err? ==> IntegerAt(bits, data).error in {Overflow, TooSmall}
  {
    hide Pow2, GroupSum, Terminator;
    if data != [] {
      ModAtMost(data[0], Pow2(bits));
      DivModOf(data[0], Pow2(bits));
      var tail := data[1..if |data| > 1 + MAX_GROUPS then 1 + MAX_GROUPS else |data|];
      assert forall i :: 1 <= i <= |tail| ==> tail[i - 1] == data[i];
      match Terminator(tail)
      case None =>
        assert forall i :: 1 <= i <= |tail| ==> data[i] >= 128;
      case Some(n) =>
        assert data[n] == tail[n - 1] < 128;
    }
  }

  // ---------- string literals ----------

  lemma StringErrors(data: seq<u8>)
    ensures StringAt(data) == Err(Overflow) <==> OverLong(7, data)
    ensures CutShort(7, data) ==> StringAt(data) == Err(TooSmall)
  {
    hide IntegerAt, Bit, OverLong, CutShort;
    IntegerErrors(7, data);
    DecodeErrors(data);
  }

  lemma DecodeErrors(data: seq<u8>)
    ensures forall payload :: Decode(payload).Err? ==> Decode(payload).error in {FoundEOS, IncompleteData}
  {
  }

  /** A literal that announces more than there is waits for more. */
  lemma StringTooShort(huffman: bool, announced: u64, body: seq<u8>)
    requires announced > |body|
    ensures StringAt(PrintInteger(if huffman then 1 else 0, 7, announced) + body) == Err(TooSmall)
  {
    hide PrintInteger, IntegerAt, Bit, Decode;
    IntegerRoundTrip(if huffman then 1 else 0, 7, announced, body);
  }

  // ---------- representations ----------

  /** No field has index 0 or one past both tables, and every other index has one. */
  predicate Unknown(t: Table, index: nat) {
    index == 0 || index > 61 + |t.fields|
  }

  lemma UnknownField(t: Table, index: nat)
    ensures FieldAt(t, index).None? <==> Unknown(t, index)
  {
  }

  /** A representation means nothing exactly when it refers to an unknown index or asks for a table
      that is not permitted. */
  predicate Meaningless(t: Table, rep: Representation) {
    match rep
    case Indexed(i) => Unknown(t, i)
    case LiteralField(_, NameIndex(i), _) => Unknown(t, i)
    case LiteralField(_, NewName(_), _) => false
    case SizeUpdate(size) => size > t.permittedSize
  }

  lemma MeaninglessExactly(t: Table, rep: Representation)
    ensures Meaning(t, rep).None? <==> Meaningless(t, rep)
  {
    hide FieldAt, Inserted, Resized;
    if rep.Indexed? {
      UnknownField(t, rep.index);
    } else if rep.LiteralField? && rep.name.NameIndex? {
      UnknownField(t, rep.name.index);
    }
  }

  lemma IndexedVerdict(t: Table, i: u64, rest: seq<u8>)
    ensures HeaderAt(t, PrintInteger(1, 7, i) + rest) == Err(IndexNotFound) <==> Unknown(t, i)
    ensures HeaderAt(t, PrintInteger(1, 7, i) + rest).Ok? <==> !Unknown(t, i)
  {
    hide PrintInteger, IntegerAt, FieldAt, LiteralFieldAt, Inserted, Resized, Bit;
    Tag(1, 7, i);
    IntegerRoundTrip(1, 7, i, rest);
    UnknownField(t, i);
    assert (PrintInteger(1, 7, i) + rest)[0] == PrintInteger(1, 7, i)[0];
  }

  lemma SizeUpdateVerdict(t: Table, size: u64, rest: seq<u8>)
    ensures HeaderAt(t, PrintInteger(1, 5, size) + rest) == Err(TableTooSmall) <==> size > t.permittedSize
    ensures HeaderAt(t, PrintInteger(1, 5, size) + rest).Ok? <==> size <= t.permittedSize
  {
    hide PrintInteger, IntegerAt, FieldAt, LiteralFieldAt, Inserted, Resized, Bit;
    Tag(1, 5, size);
    IntegerRoundTrip(1, 5, size, rest);
    assert (PrintInteger(1, 5, size) + rest)[0] == PrintInteger(1, 5, size)[0];
  }

  /** The tag bits and the width of the index of a literal field. */
  function ModePrefix(mode: Mode): u8 {
    if mode == WithoutIndexing then 0 else 1
  }

  function ModeBits(mode: Mode): nat {
    if mode == Incremental then 6 else 4
  }

  /** A literal field goes the way of its name and value. */
  lemma LiteralMode(t: Table, mode: Mode, idx: u64, rest: seq<u8>)
    ensures var data := PrintInteger(ModePrefix(mode), ModeBits(mode), idx) + rest;
            && (LiteralFieldAt(t, ModeBits(mode), data).Err? ==>
                  HeaderAt(t, data) == Err(LiteralFieldAt(t, ModeBits(mode), data).error))
            && (LiteralFieldAt(t, ModeBits(mode), data).Ok? ==> HeaderAt(t, data).Ok?)
  {
    hide PrintInteger, IntegerAt, FieldAt, LiteralFieldAt, Inserted, Resized, Bit;
    Tag(ModePrefix(mode), ModeBits(mode), idx);
    assert (PrintInteger(ModePrefix(mode), ModeBits(mode), idx) + rest)[0]
        == PrintInteger(ModePrefix(mode), ModeBits(mode), idx)[0];
  }

  /** In all three modes a name index that is not 0 is refused, whatever follows, if it is unknown, and
      else the field is refused exactly with the error of its value. */
  lemma NameIndexVerdict(t: Table, mode: Mode, i: u64, rest: seq<u8>)
    requires i != 0
    ensures var verdict := HeaderAt(t, PrintInteger(ModePrefix(mode), ModeBits(mode), i) + rest);
            && (Unknown(t, i) ==> verdict == Err(IndexNotFound))
            && (!Unknown(t, i) && StringAt(rest).Err? ==> verdict == Err(StringAt(rest).error))
            && (!Unknown(t, i) && StringAt(rest).Ok? ==> verdict.Ok?)
  {
    hide PrintInteger, IntegerAt, FieldAt, StringAt, HeaderAt;
    LiteralMode(t, mode, i, rest);
    IntegerRoundTrip(ModePrefix(mode), ModeBits(mode), i, rest);
    UnknownField(t, i);
    var head := PrintInteger(ModePrefix(mode), ModeBits(mode), i);
    assert (head + rest)[|head|..] == rest;
  }

  /** A new name is refused with the error of its literal, and then the field with that of its value. */
  lemma NewNameVerdict(t: Table, mode: Mode, rest: seq<u8>)
    ensures var verdict := HeaderAt(t, PrintInteger(ModePrefix(mode), ModeBits(mode), 0) + rest);
            && (StringAt(rest).Err? ==> verdict == Err(StringAt(rest).error))
            && (StringAt(rest).Ok? ==>
                  && StringAt(rest).value.1 <= |rest|
                  && var last := StringAt(rest[StringAt(rest).value.1..]);
                     (last.Err? ==> verdict == Err(last.error)) && (last.Ok? ==> verdict.Ok?))
  {
    hide PrintInteger, IntegerAt, FieldAt, StringAt, HeaderAt;
    LiteralMode(t, mode, 0, rest);
    IntegerRoundTrip(ModePrefix(mode), ModeBits(mode), 0, rest);
    StringSize(rest);
    var head := PrintInteger(ModePrefix(mode), ModeBits(mode), 0);
    assert (head + rest)[|head|..] == rest;
    if StringAt(rest).Ok? {
      var n := StringAt(rest).value.1;
      assert (head + rest)[|head| + n..] == rest[n..];
    }
  }

  /** Any printed representation, followed by anything, decodes exactly when it means something. A name
      index of 0 is left out, because it prints as a new name: see `ZeroNameIndex`. */
  lemma HeaderVerdict(t: Table, rep: Representation, rest: seq<u8>)
    requires Printable(rep)
    requires rep.LiteralField? && rep.name.NameIndex? ==> rep.name.index != 0
    ensures HeaderAt(t, Print(rep) + rest).Ok? <==> !Meaningless(t, rep)
    ensures Meaningless(t, rep) ==>
              HeaderAt(t, Print(rep) + rest) == Err(if rep.SizeUpdate? then TableTooSmall else IndexNotFound)
  {
    hide PrintInteger, PrintText, HeaderAt, Meaning, FieldAt, Unknown;
    MeaninglessExactly(t, rep);
    if Meaning(t, rep).Some? {
      HeaderRoundTrip(t, rep, rest);
    } else {
      match rep
      case Indexed(i) => IndexedVerdict(t, i, rest);
      case SizeUpdate(size) => SizeUpdateVerdict(t, size, rest);
      case LiteralField(mode, NameIndex(i), value) =>
        NameIndexVerdict(t, mode, i, PrintText(value) + rest);
        var head := PrintInteger(ModePrefix(mode), ModeBits(mode), i);
        assert head + PrintText(value) + rest == head + (PrintText(value) + rest);
    }
  }

  /** A literal field printed with name index 0 is the front of one with a new name: what was to be its
      value is its name, and its value is still to come. */
  lemma ZeroNameIndex(t: Table, mode: Mode, name: Text, value: Text, rest: seq<u8>)
    requires |Payload(name)| < TWO_64 && |Payload(value)| < TWO_64
    ensures HeaderAt(t, Print(LiteralField(mode, NameIndex(0), name))) == Err(TooSmall)
    ensures var decoded := HeaderAt(t, Print(LiteralField(mode, NameIndex(0), name)) + PrintText(value) + rest);
            decoded.Ok? && decoded.value.field == Field(name.s, value.s)
  {
    hide PrintInteger, PrintText, HeaderAt, FieldAt, Payload, StringAt;
    var rep := LiteralField(mode, NewName(name), value);
    var front := Print(LiteralField(mode, NameIndex(0), name));
    assert Print(rep) == front + PrintText(value);
    HeaderRoundTrip(t, rep, rest);
    NewNameVerdict(t, mode, PrintText(name));
    TextRoundTrip(name, []);
    assert PrintText(name) + [] == PrintText(name);
    assert PrintText(name)[|PrintText(name)|..] == [];
    StringErrors([]);
  }

  /** An over-long integer at the front is an overflow, at the width that the tag bits give it. */
  lemma HeaderOverflow(t: Table, data: seq<u8>)
    requires data != []
    ensures var tag := data[0];
            var bits := if tag >= 128 then 7 else if tag >= 64 then 6 else if tag >= 32 then 5 else 4;
            && (OverLong(bits, data) ==> HeaderAt(t, data) == Err(Overflow))
            && ((tag >= 128 || 32 <= tag < 64) ==> (HeaderAt(t, data) == Err(Overflow) <==> OverLong(bits, data)))
  {
    hide IntegerAt, FieldAt, StringAt, Inserted, Resized, Bit, OverLong, CutShort, Pow2;
    var tag := data[0];
    BitAsQuotient(tag, 7);
    BitAsQuotient(tag, 6);
    BitAsQuotient(tag, 5);
    PowersOfTwo();
    IntegerErrors(7, data);
    IntegerErrors(6, data);
    IntegerErrors(5, data);
    IntegerErrors(4, data);
  }

  /** A block that goes wrong: what stands before the failing bytes is decoded, and they are left. */
  lemma {:induction false} BlockStops(t: Table, reps: seq<Representation>, bad: seq<u8>)
    requires forall rep :: rep in reps ==> Printable(rep)
    requires MeaningAll(t, reps).Some? && bad != [] && HeaderAt(MeaningAll(t, reps).value.1, bad).Err?
    ensures var (fields, last) := MeaningAll(t, reps).value;
            Drain(t, PrintAll(reps) + bad) == Progress(last, fields, bad, Some(HeaderAt(last, bad).error))
    decreases |reps|
  {
    hide HeaderAt, Meaning, Print, Printable;
    if reps == [] {
      assert PrintAll(reps) + bad == bad;
    } else {
      HeaderRoundTrip(t, reps[0], PrintAll(reps[1..]) + bad);
      var (f, next) := Meaning(t, reps[0]).value;
      var data := PrintAll(reps) + bad;
      assert data == Print(reps[0]) + (PrintAll(reps[1..]) + bad);
      assert data[|Print(reps[0])|..] == PrintAll(reps[1..]) + bad;
      BlockStops(next, reps[1..], bad);
    }
  }
}
