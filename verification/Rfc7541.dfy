/** Anchors in RFC 7541: the tag bytes of section 6, static table entries of Appendix A, and the
    integers and header blocks of Appendix C, byte for byte. */
module Rfc7541 {
  import opened Wrappers
  import opened Arithmetic
  import opened Words
  import opened Huffman
  import opened Literal
  import opened StaticTable
  import opened Tables
  import opened HeaderDecoder
  import opened HeaderLaws

  // ---------- integers ----------

  /** The integers of Appendix C.1 that fit a prefix of less than a byte. */
  lemma IntegerExamples()
    ensures PrintInteger(0, 5, 10) == [0x0A]
    ensures PrintInteger(0, 5, 1337) == [0x1F, 0x9A, 0x0A]
  {
    PowersOfTwo();
    assert Groups(1306) == [0x9A] + Groups(10);
    assert Groups(10) == [0x0A];
  }

  /** The first byte of each representation of section 6 and of a plain string, for short integers. */
  lemma TagBytes(n: nat)
    ensures n < 127 ==> PrintInteger(1, 7, n) == [0x80 + n] && PrintInteger(0, 7, n) == [n]
    ensures n < 63 ==> PrintInteger(1, 6, n) == [0x40 + n]
    ensures n < 31 ==> PrintInteger(1, 5, n) == [0x20 + n]
    ensures n < 15 ==> PrintInteger(0, 4, n) == [n] && PrintInteger(1, 4, n) == [0x10 + n]
  {
    hide Pow2, High, Groups;
    PowersOfTwo();
    Prefixes();
  }

  lemma Prefixes()
    ensures High(0, 7) == 0 && High(1, 7) == 0x80 && High(1, 6) == 0x40 && High(1, 5) == 0x20
    ensures High(0, 4) == 0 && High(1, 4) == 0x10
  {
    hide Pow2;
    PowersOfTwo();
  }

  lemma {:induction false} GroupBound(groups: seq<u8>)
    ensures GroupSum(groups) < Pow2(7 * |groups|)
    decreases |groups|
  {
    if groups != [] {
      GroupBound(groups[1..]);
      Pow2Add(7, 7 * |groups[1..]|);
      PowersOfTwo();
    }
  }

  /** Nothing that says n is shorter than what is printed for it. */
  lemma PrintedShortest(prefix: u8, bits: nat, n: nat, data: seq<u8>, k: nat)
    requires bits <= 7 && data != [] && data[0] % Pow2(bits) == Pow2(bits) - 1
    requires Terminator(data[1..]) == Some(k) && Pow2(bits) - 1 + GroupSum(data[1..1 + k]) == n
    ensures |PrintInteger(prefix, bits, n)| <= 1 + k
    ensures forall short: nat :: short < Pow2(bits) - 1 ==> |PrintInteger(prefix, bits, short)| == 1
  {
    hide Pow2, GroupSum, Groups, Terminator;
    GroupBound(data[1..1 + k]);
    GroupsLength(n - (Pow2(bits) - 1), k);
  }

  // ---------- the static table ----------

  /** The entries that stand for requests, the statuses and the one other entry with a value. */
  lemma StaticFields(t: Table)
    ensures FieldAt(t, 1) == Some(Field(Ascii(":authority"), []))
    ensures FieldAt(t, 2) == Some(Field(Ascii(":method"), Ascii("GET")))
    ensures FieldAt(t, 3) == Some(Field(Ascii(":method"), Ascii("POST")))
    ensures FieldAt(t, 4) == Some(Field(Ascii(":path"), Ascii("/")))
    ensures FieldAt(t, 5) == Some(Field(Ascii(":path"), Ascii("/index.html")))
    ensures FieldAt(t, 6) == Some(Field(Ascii(":scheme"), Ascii("http")))
    ensures FieldAt(t, 7) == Some(Field(Ascii(":scheme"), Ascii("https")))
    ensures FieldAt(t, 8) == Some(Field(Ascii(":status"), Ascii("200")))
    ensures FieldAt(t, 9) == Some(Field(Ascii(":status"), Ascii("204")))
    ensures FieldAt(t, 10) == Some(Field(Ascii(":status"), Ascii("206")))
    ensures FieldAt(t, 11) == Some(Field(Ascii(":status"), Ascii("304")))
    ensures FieldAt(t, 12) == Some(Field(Ascii(":status"), Ascii("400")))
    ensures FieldAt(t, 13) == Some(Field(Ascii(":status"), Ascii("404")))
    ensures FieldAt(t, 14) == Some(Field(Ascii(":status"), Ascii("500")))
    ensures FieldAt(t, 16) == Some(Field(Ascii("accept-encoding"), Ascii("gzip, deflate")))
    ensures FieldAt(t, 24) == Some(Field(Ascii("cache-control"), []))
    ensures FieldAt(t, 33) == Some(Field(Ascii("date"), []))
    ensures FieldAt(t, 46) == Some(Field(Ascii("location"), []))
  {
    hide Ascii;
  }

  // ---------- one representation at a time ----------

  /** One printed representation in front of more of a block. */
  lemma Step(t: Table, rep: Representation, bytes: seq<u8>, f: Field, next: Table, more: seq<u8>)
    requires Printable(rep) && Print(rep) == bytes && Meaning(t, rep) == Some((f, next))
    ensures Drain(t, bytes + more) == Prefixed([f], Drain(next, more))
  {
    hide HeaderAt, Print, Printable, Meaning;
    HeaderRoundTrip(t, rep, more);
    DrainStep([], t, bytes + more);
    assert (bytes + more)[|bytes|..] == more;
  }

  lemma IndexedStep(t: Table, i: nat, more: seq<u8>)
    requires 0 < i < 127 && FieldAt(t, i).Some?
    ensures Drain(t, [0x80 + i] + more) == Prefixed([FieldAt(t, i).value], Drain(t, more))
  {
    hide FieldAt, Drain, Inserted, Resized, PrintInteger;
    TagBytes(i);
    Step(t, Indexed(i), [0x80 + i], FieldAt(t, i).value, t, more);
  }

  /** A plain value, with an indexed name, that is added to the table. */
  lemma LiteralStep(t: Table, i: nat, value: seq<u8>, more: seq<u8>)
    requires 0 < i < 63 && FieldAt(t, i).Some? && |value| < 127
    ensures var f := Field(FieldAt(t, i).value.name, value);
            Drain(t, [0x40 + i, |value|] + value + more) == Prefixed([f], Drain(Inserted(t, f), more))
  {
    hide FieldAt, Drain, Inserted, Resized, PrintInteger;
    TagBytes(i);
    TagBytes(|value|);
    var f := Field(FieldAt(t, i).value.name, value);
    var rep := LiteralField(Incremental, NameIndex(i), Text(value, false));
    assert [0x40 + i] + ([|value|] + value) == [0x40 + i, |value|] + value;
    Step(t, rep, [0x40 + i, |value|] + value, f, Inserted(t, f), more);
  }

  /** The same with a new name. */
  lemma NewNameStep(t: Table, name: seq<u8>, value: seq<u8>, more: seq<u8>)
    requires |name| < 127 && |value| < 127
    ensures var f := Field(name, value);
            Drain(t, [0x40, |name|] + name + [|value|] + value + more) == Prefixed([f], Drain(Inserted(t, f), more))
  {
    hide FieldAt, Drain, Inserted, Resized, PrintInteger;
    TagBytes(0);
    TagBytes(|name|);
    TagBytes(|value|);
    var f := Field(name, value);
    var rep := LiteralField(Incremental, NewName(Text(name, false)), Text(value, false));
    var bytes := [0x40, |name|] + name + [|value|] + value;
    assert [0x40] + ([|name|] + name) + ([|value|] + value) == bytes;
    Step(t, rep, bytes, f, Inserted(t, f), more);
  }

  lemma Last(t: Table)
    ensures Drain(t, []) == Progress(t, [], [], None)
  {
  }

  /** A field that fits beside all the others. */
  lemma FitsIn(t: Table, f: Field)
    requires TotalSize(t.fields) + Size(f) <= t.maxSize
    ensures Inserted(t, f) == t.(fields := t.fields + [f])
    ensures TotalSize(t.fields + [f]) == TotalSize(t.fields) + Size(f)
  {
    hide Size;
    NewestStep(t.fields, t.maxSize - Size(f));
    TotalSizeConcat(t.fields, [f]);
    OneField(f);
  }

  // ---------- header blocks of Appendix C ----------

  const AUTHORITY: Field := Field(Ascii(":authority"), Ascii("www.example.com"))
  const NO_CACHE: Field := Field(Ascii("cache-control"), Ascii("no-cache"))
  const CUSTOM: Field := Field(Ascii("custom-key"), Ascii("custom-value"))
  const GET: Field := Field(Ascii(":method"), Ascii("GET"))
  const HTTP: Field := Field(Ascii(":scheme"), Ascii("http"))
  const HTTPS: Field := Field(Ascii(":scheme"), Ascii("https"))
  const ROOT: Field := Field(Ascii(":path"), Ascii("/"))
  const INDEX: Field := Field(Ascii(":path"), Ascii("/index.html"))

  /** The table of a new connection with some fields in it. */
  function With(fields: seq<Field>): Table {
    Table(fields, 4096, 4096)
  }

  /** C.3.1: a first request. */
  lemma FirstRequest()
    ensures Drain(With([]), [0x82, 0x86, 0x84, 0x41, 0x0F] + Ascii("www.example.com"))
         == Progress(With([AUTHORITY]), [GET, HTTP, ROOT, AUTHORITY], [], None)
    ensures TotalSize([AUTHORITY]) == 57
  {
    hide Ascii, Drain, Inserted, FieldAt;
    var t := With([]);
    var value := Ascii("www.example.com");
    StaticFields(t);
    var rest := [0x41, 0x0F] + value;
    IndexedStep(t, 2, [0x86] + ([0x84] + rest));
    IndexedStep(t, 6, [0x84] + rest);
    IndexedStep(t, 4, rest);
    LiteralStep(t, 1, value, []);
    assert rest + [] == rest;
    FitsIn(t, AUTHORITY);
    Last(With([AUTHORITY]));
    assert [0x82, 0x86, 0x84, 0x41, 0x0F] + value == [0x82] + ([0x86] + ([0x84] + rest));
    assert [] + [AUTHORITY] == [AUTHORITY];
  }

  /** C.3.2: a second one, which refers to the first one's authority. */
  lemma SecondRequest()
    ensures Drain(With([AUTHORITY]), [0x82, 0x86, 0x84, 0xBE, 0x58, 0x08] + Ascii("no-cache"))
         == Progress(With([AUTHORITY, NO_CACHE]), [GET, HTTP, ROOT, AUTHORITY, NO_CACHE], [], None)
    ensures TotalSize([AUTHORITY, NO_CACHE]) == 110
  {
    hide Ascii, Drain, Inserted, FieldAt;
    var t := With([AUTHORITY]);
    var value := Ascii("no-cache");
    StaticFields(t);
    FirstRequest();
    NewestFirst(t);
    var rest := [0x58, 0x08] + value;
    IndexedStep(t, 2, [0x86] + ([0x84] + ([0xBE] + rest)));
    IndexedStep(t, 6, [0x84] + ([0xBE] + rest));
    IndexedStep(t, 4, [0xBE] + rest);
    IndexedStep(t, 62, rest);
    LiteralStep(t, 24, value, []);
    assert rest + [] == rest;
    FitsIn(t, NO_CACHE);
    Last(With([AUTHORITY, NO_CACHE]));
    assert [0x82, 0x86, 0x84, 0xBE, 0x58, 0x08] + value == [0x82] + ([0x86] + ([0x84] + ([0xBE] + rest)));
    assert [AUTHORITY] + [NO_CACHE] == [AUTHORITY, NO_CACHE];
  }

  /** C.3.3: a third one, with a new name; the authority has moved up to index 63. */
  lemma ThirdRequest()
    ensures Drain(With([AUTHORITY, NO_CACHE]),
                  [0x82, 0x87, 0x85, 0xBF, 0x40, 0x0A] + Ascii("custom-key") + [0x0C] + Ascii("custom-value"))
         == Progress(With([AUTHORITY, NO_CACHE, CUSTOM]), [GET, HTTPS, INDEX, AUTHORITY, CUSTOM], [], None)
    ensures TotalSize([AUTHORITY, NO_CACHE, CUSTOM]) == 164
  {
    hide Ascii, Drain, Inserted, FieldAt;
    var t := With([AUTHORITY, NO_CACHE]);
    var name, value := Ascii("custom-key"), Ascii("custom-value");
    StaticFields(t);
    SecondRequest();
    NewestFirst(t);
    var rest := [0x40, 0x0A] + name + [0x0C] + value;
    IndexedStep(t, 2, [0x87] + ([0x85] + ([0xBF] + rest)));
    IndexedStep(t, 7, [0x85] + ([0xBF] + rest));
    IndexedStep(t, 5, [0xBF] + rest);
    IndexedStep(t, 63, rest);
    NewNameStep(t, name, value, []);
    assert rest + [] == rest;
    FitsIn(t, CUSTOM);
    Last(With([AUTHORITY, NO_CACHE, CUSTOM]));
    assert [0x82, 0x87, 0x85, 0xBF, 0x40, 0x0A] + name + [0x0C] + value
        == [0x82] + ([0x87] + ([0x85] + ([0xBF] + rest)));
    assert [AUTHORITY, NO_CACHE] + [CUSTOM] == [AUTHORITY, NO_CACHE, CUSTOM];
  }

  /** Indices from 62 on count from the newest field. */
  lemma NewestFirst(t: Table)
    ensures |t.fields| >= 1 ==> FieldAt(t, 62) == Some(t.fields[|t.fields| - 1])
    ensures |t.fields| >= 2 ==> FieldAt(t, 63) == Some(t.fields[|t.fields| - 2])
    ensures |t.fields| >= 3 ==> FieldAt(t, 64) == Some(t.fields[|t.fields| - 3])
    ensures |t.fields| >= 4 ==> FieldAt(t, 65) == Some(t.fields[|t.fields| - 4])
  {
  }

  const FOUND: Field := Field(Ascii(":status"), Ascii("302"))
  const REDIRECT: Field := Field(Ascii(":status"), Ascii("307"))
  const PRIVATE: Field := Field(Ascii("cache-control"), Ascii("private"))
  const DATE: Field := Field(Ascii("date"), Ascii("Mon, 21 Oct 2013 20:13:21 GMT"))
  const LOCATION: Field := Field(Ascii("location"), Ascii("https://www.example.com"))

  /** The table of Appendix C.5, which is limited to 256 bytes. */
  function Small(fields: seq<Field>): Table {
    Table(fields, 256, 256)
  }

  /** C.5.1: a first response fills 222 bytes of the table. */
  lemma FirstResponse()
    ensures Drain(Small([]),
                  [0x48, 0x03] + FOUND.value + ([0x58, 0x07] + PRIVATE.value
                  + ([0x61, 0x1D] + DATE.value + ([0x6E, 0x17] + LOCATION.value + []))))
         == Progress(Small([FOUND, PRIVATE, DATE, LOCATION]), [FOUND, PRIVATE, DATE, LOCATION], [], None)
    ensures TotalSize([FOUND, PRIVATE, DATE, LOCATION]) == 222
  {
    hide Ascii, Drain, Inserted, FieldAt, TotalSize;
    var t0, t1, t2 := Small([]), Small([FOUND]), Small([FOUND, PRIVATE]);
    var t3, t4 := Small([FOUND, PRIVATE, DATE]), Small([FOUND, PRIVATE, DATE, LOCATION]);
    StaticFields(t0);
    StaticFields(t1);
    StaticFields(t2);
    StaticFields(t3);
    NoFields([]);
    FitsIn(t0, FOUND);
    assert [] + [FOUND] == [FOUND];
    FitsIn(t1, PRIVATE);
    assert [FOUND] + [PRIVATE] == [FOUND, PRIVATE];
    FitsIn(t2, DATE);
    assert [FOUND, PRIVATE] + [DATE] == [FOUND, PRIVATE, DATE];
    FitsIn(t3, LOCATION);
    assert [FOUND, PRIVATE, DATE] + [LOCATION] == [FOUND, PRIVATE, DATE, LOCATION];
    var rest3 := [0x6E, 0x17] + LOCATION.value + [];
    var rest2 := [0x61, 0x1D] + DATE.value + rest3;
    LiteralStep(t0, 8, FOUND.value, [0x58, 0x07] + PRIVATE.value + rest2);
    LiteralStep(t1, 24, PRIVATE.value, rest2);
    LiteralStep(t2, 33, DATE.value, rest3);
    LiteralStep(t3, 46, LOCATION.value, []);
    Last(t4);
  }

  /** C.5.2: a second one evicts the status of the first, and refers to the rest by index. */
  lemma SecondResponse()
    ensures Drain(Small([FOUND, PRIVATE, DATE, LOCATION]), [0x48, 0x03] + REDIRECT.value + [0xC1, 0xC0, 0xBF])
         == Progress(Small([PRIVATE, DATE, LOCATION, REDIRECT]), [REDIRECT, PRIVATE, DATE, LOCATION], [], None)
    ensures TotalSize([PRIVATE, DATE, LOCATION, REDIRECT]) == 222
  {
    hide Ascii, Drain, Inserted, FieldAt;
    var t0, t1 := Small([FOUND, PRIVATE, DATE, LOCATION]), Small([PRIVATE, DATE, LOCATION, REDIRECT]);
    StaticFields(t0);
    FirstResponse();
    Evicts(t0);
    NewestFirst(t1);
    LiteralStep(t0, 8, REDIRECT.value, [0xC1, 0xC0, 0xBF]);
    IndexedStep(t1, 65, [0xC0, 0xBF]);
    IndexedStep(t1, 64, [0xBF]);
    IndexedStep(t1, 63, []);
    Last(t1);
    assert [0xC1] + [0xC0, 0xBF] == [0xC1, 0xC0, 0xBF] && [0xC0] + [0xBF] == [0xC0, 0xBF] && [0xBF] + [] == [0xBF];
  }

  lemma Evicts(t: Table)
    requires t == Small([FOUND, PRIVATE, DATE, LOCATION])
    ensures Inserted(t, REDIRECT) == Small([PRIVATE, DATE, LOCATION, REDIRECT])
    ensures TotalSize([PRIVATE, DATE, LOCATION, REDIRECT]) == 222
  {
    hide Ascii;
    FirstResponse();
    var kept := [PRIVATE, DATE, LOCATION];
    var room := 256 - Size(REDIRECT);
    assert t.fields[1..] == kept;
    NewestStep(t.fields, room);
    NewestStep(kept, room);
    assert kept + [REDIRECT] == [PRIVATE, DATE, LOCATION, REDIRECT];
    TotalSizeConcat(kept, [REDIRECT]);
    OneField(REDIRECT);
  }
}
