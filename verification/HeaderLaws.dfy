/** Main results about header blocks: decoding undoes printing, over any list of representations, and
    decoding does not depend on how the block is cut into frames. */
module HeaderLaws {
  import opened Wrappers
  import opened Words
  import opened Huffman
  import opened Literal
  import opened LiteralLaws
  import opened Tables
  import opened HeaderDecoder

  // ---------- representations, their meaning and their bytes ----------

  /** A string literal, and the form its sender chose for it. */
  datatype Text = Text(s: seq<u8>, huffman: bool)

  datatype NameRef = NameIndex(index: u64) | NewName(text: Text)

  datatype Mode = Incremental | WithoutIndexing | NeverIndexed

  /** The representations of section 6 of RFC 7541. */
  datatype Representation =
    | Indexed(index: u64)
    | LiteralField(mode: Mode, name: NameRef, value: Text)
    | SizeUpdate(size: u64)

  function Payload(text: Text): seq<u8> {
    if text.huffman then Encode(text.s) else text.s
  }

  /** The lengths of literals fit the integers that announce them. */
  predicate Printable(rep: Representation) {
    rep.LiteralField? ==>
      && |Payload(rep.value)| < TWO_64
      && (rep.name.NewName? ==> |Payload(rep.name.text)| < TWO_64)
  }

  function NameOf(t: Table, name: NameRef): Option<seq<u8>> {
    match name
    case NameIndex(i) => (match FieldAt(t, i) case None => None case Some(f) => Some(f.name))
    case NewName(text) => Some(text.s)
  }

  /** The field a representation stands for and the table it leaves, in terms of the table as a
      sequence of fields. A size update stands for no field; the driver sees an empty one. */
  function Meaning(t: Table, rep: Representation): Option<(Field, Table)> {
    match rep
    case Indexed(i) => (match FieldAt(t, i) case None => None case Some(f) => Some((f, t)))
    case LiteralField(mode, name, value) =>
      (match NameOf(t, name)
       case None => None
       case Some(n) =>
         var f := Field(n, value.s);
         Some((f, if mode == Incremental then Inserted(t, f) else t)))
    case SizeUpdate(size) =>
      if size > t.permittedSize then None else Some((Field([], []), Resized(t, size)))
  }

  function MeaningAll(t: Table, reps: seq<Representation>): Option<(seq<Field>, Table)>
    decreases |reps|
  {
    if reps == [] then Some(([], t))
    else
      match Meaning(t, reps[0])
      case None => None
      case Some((f, next)) =>
        match MeaningAll(next, reps[1..])
        case None => None
        case Some((fs, last)) => Some(([f] + fs, last))
  }

  function PrintText(text: Text): seq<u8> {
    Framed(text.huffman, Payload(text))
  }

  function PrintName(prefix: u8, bits: nat, name: NameRef): (s: seq<u8>)
    requires bits <= 7
    ensures s != []
  {
    match name
    case NameIndex(i) => PrintInteger(prefix, bits, i)
    case NewName(text) => PrintInteger(prefix, bits, 0) + PrintText(text)
  }

  /** The bytes of a representation: tag bits and an integer of the width that is left, then literals. */
  function Print(rep: Representation): (s: seq<u8>)
    ensures s != []
  {
    match rep
    case Indexed(i) => PrintInteger(1, 7, i)
    case LiteralField(Incremental, name, value) => PrintName(1, 6, name) + PrintText(value)
    case LiteralField(WithoutIndexing, name, value) => PrintName(0, 4, name) + PrintText(value)
    case LiteralField(NeverIndexed, name, value) => PrintName(1, 4, name) + PrintText(value)
    case SizeUpdate(size) => PrintInteger(1, 5, size)
  }

  function PrintAll(reps: seq<Representation>): seq<u8> {
    if reps == [] then [] else Print(reps[0]) + PrintAll(reps[1..])
  }

  // ---------- decoding undoes printing ----------

  /** The tag bits of a byte, and the tag a prefix makes. */
  lemma Tag(prefix: u8, bits: nat, n: nat)
    requires bits <= 7
    ensures var tag := PrintInteger(prefix, bits, n)[0];
            && (bits == 7 && prefix == 1 ==> Bit(tag, 7))
            && (bits == 6 && prefix == 1 ==> !Bit(tag, 7) && Bit(tag, 6))
            && (bits == 5 && prefix == 1 ==> !Bit(tag, 7) && !Bit(tag, 6) && Bit(tag, 5))
            && (bits == 4 && prefix <= 1 ==> !Bit(tag, 7) && !Bit(tag, 6) && !Bit(tag, 5))
  {
    hide PrintInteger, Bit, Pow2;
    var tag := PrintInteger(prefix, bits, n)[0];
    PrefixBits(prefix, bits, n);
    BitAsQuotient(tag, 7);
    BitAsQuotient(tag, 6);
    BitAsQuotient(tag, 5);
    PowersOfTwo();
    if bits == 7 {
    } else if bits == 6 {
    } else if bits == 5 {
    }
  }

  lemma TextRoundTrip(text: Text, rest: seq<u8>)
    requires |Payload(text)| < TWO_64
    ensures StringAt(PrintText(text) + rest) == Ok((text.s, |PrintText(text)|))
  {
    hide Encode, StringAt, Framed;
    FramedRoundTrip(text.huffman, text.s, rest);
  }

  /** Decoding a printed literal field: the name is looked up, or read, before the value is. */
  lemma LiteralFieldRoundTrip(t: Table, prefix: u8, bits: nat, name: NameRef, value: Text, rest: seq<u8>)
    requires 1 <= bits <= 7
    requires |Payload(value)| < TWO_64 && (name.NewName? ==> |Payload(name.text)| < TWO_64)
    requires NameOf(t, name).Some?
    ensures var printed := PrintName(prefix, bits, name) + PrintText(value);
            LiteralFieldAt(t, bits, printed + rest) == Ok((Field(NameOf(t, name).value, value.s), |printed|))
  {
    hide Payload, PrintText, PrintInteger, IntegerAt, StringAt, FieldAt;
    var printed := PrintName(prefix, bits, name) + PrintText(value);
    var data := printed + rest;
    var idx := if name.NameIndex? then name.index else 0;
    var head := PrintInteger(prefix, bits, idx);
    var body := if name.NewName? then PrintText(name.text) else [];
    assert data == head + (body + (PrintText(value) + rest));
    IntegerRoundTrip(prefix, bits, idx, body + (PrintText(value) + rest));
    assert data[|head|..] == body + (PrintText(value) + rest);
    if name.NewName? {
      TextRoundTrip(name.text, PrintText(value) + rest);
    } else {
      IndexZero(t);
    }
    assert data[|head| + |body|..] == PrintText(value) + rest;
    TextRoundTrip(value, rest);
  }

  lemma IndexZero(t: Table)
    ensures FieldAt(t, 0) == None
  {
  }

  /** One printed representation, followed by anything, decodes to its meaning and its length. */
  lemma HeaderRoundTrip(t: Table, rep: Representation, rest: seq<u8>)
    requires Printable(rep) && Meaning(t, rep).Some?
    ensures HeaderAt(t, Print(rep) + rest)
         == Ok(Decoded(|Print(rep)|, Meaning(t, rep).value.0, Meaning(t, rep).value.1))
  {
    hide Payload, PrintText, PrintInteger, IntegerAt, StringAt, FieldAt, Inserted, Resized, LiteralFieldAt, Bit;
    var data := Print(rep) + rest;
    assert data[0] == Print(rep)[0];
    match rep
    case Indexed(i) =>
      Tag(1, 7, i);
      IntegerRoundTrip(1, 7, i, rest);
    case SizeUpdate(size) =>
      Tag(1, 5, size);
      IntegerRoundTrip(1, 5, size, rest);
    case LiteralField(mode, name, value) =>
      var bits := if mode == Incremental then 6 else 4;
      var prefix := if mode == WithoutIndexing then 0 else 1;
      Tag(prefix, bits, if name.NameIndex? then name.index else 0);
      LiteralFieldRoundTrip(t, prefix, bits, name, value, rest);
  }

  /** End to end: every list of representations that means something decodes, printed, to exactly
      that, consuming all the bytes and leaving the table that the meaning describes. */
  lemma {:induction false} BlockRoundTrip(t: Table, reps: seq<Representation>)
    requires forall rep :: rep in reps ==> Printable(rep)
    requires MeaningAll(t, reps).Some?
    ensures Drain(t, PrintAll(reps)) == Progress(MeaningAll(t, reps).value.1, MeaningAll(t, reps).value.0, [], None)
    decreases |reps|
  {
    hide HeaderAt, Meaning, Print, Printable;
    if reps != [] {
      HeaderRoundTrip(t, reps[0], PrintAll(reps[1..]));
      var (f, next) := Meaning(t, reps[0]).value;
      BlockRoundTrip(next, reps[1..]);
      assert PrintAll(reps)[|Print(reps[0])|..] == PrintAll(reps[1..]);
    }
  }

  // ---------- input in pieces ----------

  lemma LiteralFieldStable(t: Table, bits: nat, data: seq<u8>, more: seq<u8>)
    ensures LiteralFieldAt(t, bits, data) == Err(TooSmall)
         || LiteralFieldAt(t, bits, data + more) == LiteralFieldAt(t, bits, data)
  {
    hide IntegerAt, StringAt, FieldAt;
    IntegerSize(bits, data);
    if IntegerAt(bits, data) != Err(TooSmall) { IntegerStable(bits, data, more); }
    if IntegerAt(bits, data).Ok? {
      var (idx, read) := IntegerAt(bits, data).value;
      assert (data + more)[read..] == data[read..] + more;
      StringSize(data[read..]);
      var name := if idx == 0 then StringAt(data[read..])
                  else match FieldAt(t, idx) case None => Err(IndexNotFound) case Some(f) => Ok((f.name, 0));
      if idx == 0 && name != Err(TooSmall) { StringStable(data[read..], more); }
      if name.Ok? {
        var from := read + name.value.1;
        assert (data + more)[from..] == data[from..] + more;
        if StringAt(data[from..]) != Err(TooSmall) { StringStable(data[from..], more); }
      }
    }
  }

  /** Any verdict on a representation other than TooSmall is final: more input does not change it. */
  lemma HeaderStable(t: Table, data: seq<u8>, more: seq<u8>)
    ensures HeaderAt(t, data) == Err(TooSmall) || HeaderAt(t, data + more) == HeaderAt(t, data)
  {
    hide IntegerAt, LiteralFieldAt, FieldAt, Inserted, Resized, Bit;
    if HeaderAt(t, data) != Err(TooSmall) {
      assert (data + more)[0] == data[0];
      if Bit(data[0], 7) {
        IntegerStable(7, data, more);
      } else if Bit(data[0], 6) {
        LiteralFieldStable(t, 6, data, more);
      } else if Bit(data[0], 5) {
        IntegerStable(5, data, more);
      } else {
        LiteralFieldStable(t, 4, data, more);
      }
    }
  }

  /** Every proper prefix of a representation that decodes is TooSmall. */
  lemma HeaderPrefix(t: Table, data: seq<u8>, k: nat)
    ensures HeaderAt(t, data).Ok? && k < HeaderAt(t, data).value.read ==>
              k <= |data| && HeaderAt(t, data[..k]) == Err(TooSmall)
  {
    hide HeaderAt;
    HeaderSize(t, data);
    if HeaderAt(t, data).Ok? && k < HeaderAt(t, data).value.read {
      assert data[..k] + data[k..] == data;
      HeaderStable(t, data[..k], data[k..]);
      HeaderSize(t, data[..k]);
    }
  }

  /** More input for a decoder: one that has stopped for want of bytes goes on with the bytes it had
      left in front of the new ones, one that has met an error does not. */
  ghost function Feed(p: Progress, more: seq<u8>): Progress {
    if p.stopped == None || p.stopped == Some(TooSmall) then Prefixed(p.fields, Drain(p.table, p.pending + more))
    else p.(pending := p.pending + more)
  }

  ghost function FeedAll(p: Progress, fragments: seq<seq<u8>>): Progress
    decreases |fragments|
  {
    if fragments == [] then p else FeedAll(Feed(p, fragments[0]), fragments[1..])
  }

  function Joined(fragments: seq<seq<u8>>): seq<u8>
    decreases |fragments|
  {
    if fragments == [] then [] else fragments[0] + Joined(fragments[1..])
  }

  lemma {:induction false} DrainFeed(t: Table, a: seq<u8>, b: seq<u8>)
    ensures Drain(t, a + b) == Feed(Drain(t, a), b)
    decreases |a|
  {
    hide HeaderAt;
    DrainStep([], t, a);
    if a == [] {
      assert [] + b == b && a + b == b;
      DrainStep([], t, b);
    } else {
      assert a + b != [];
      DrainStep([], t, a + b);
      match HeaderAt(t, a)
      case Ok(d) =>
        HeaderStable(t, a, b);
        HeaderSize(t, a);
        assert (a + b)[d.read..] == a[d.read..] + b;
        DrainFeed(d.table, a[d.read..], b);
        FeedPrefixed([d.field], Drain(d.table, a[d.read..]), b);
      case Err(e) =>
        if e != TooSmall { HeaderStable(t, a, b); }
    }
  }

  lemma FeedPrefixed(fields: seq<Field>, p: Progress, more: seq<u8>)
    ensures Feed(Prefixed(fields, p), more) == Prefixed(fields, Feed(p, more))
  {
    hide Drain;
    var q := Drain(p.table, p.pending + more);
    assert fields + p.fields + q.fields == fields + (p.fields + q.fields);
  }

  /** Fragmentation does not matter: for any bytes at all, valid or not, and any way of cutting them
      into pieces, a decoder fed the pieces ends up with the fields, the table, the unread bytes and
      the verdict it reaches on the whole. */
  lemma {:induction false} FragmentationInvariant(t: Table, start: seq<u8>, fragments: seq<seq<u8>>)
    ensures FeedAll(Drain(t, start), fragments) == Drain(t, start + Joined(fragments))
    decreases |fragments|
  {
    hide Drain, Feed;
    if fragments == [] {
      assert start + Joined(fragments) == start;
    } else {
      DrainFeed(t, start, fragments[0]);
      FragmentationInvariant(t, start + fragments[0], fragments[1..]);
      assert start + fragments[0] + Joined(fragments[1..]) == start + Joined(fragments);
    }
  }

  /** A valid block, printed, cut anywhere and decoded piece by piece. */
  lemma FragmentedBlock(t: Table, reps: seq<Representation>, fragments: seq<seq<u8>>)
    requires forall rep :: rep in reps ==> Printable(rep)
    requires MeaningAll(t, reps).Some? && Joined(fragments) == PrintAll(reps)
    ensures FeedAll(Progress(t, [], [], None), fragments)
         == Progress(MeaningAll(t, reps).value.1, MeaningAll(t, reps).value.0, [], None)
  {
    hide HeaderAt, Print, Meaning;
    BlockRoundTrip(t, reps);
    FragmentationInvariant(t, [], fragments);
    assert [] + Joined(fragments) == Joined(fragments);
  }
}
