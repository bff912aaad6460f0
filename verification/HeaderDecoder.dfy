/** The decoder of header field representations (frame/header.rs, `read_header`; section 6 of
    RFC 7541) and the loop that drives it over a header block. */
module HeaderDecoder {
  import opened Wrappers
  import opened Words
  import opened Buffers
  import opened Huffman
  import opened Literal
  import opened LiteralLaws
  import opened Tables

  // ---------- one representation ----------

  /** A decoded representation: the bytes it takes, the field it yields (empty for a size update),
      and the table after it. */
  datatype Decoded = Decoded(read: nat, field: Field, table: Table)

  /** A literal field: an index or a new name, then a value. */
  ghost function LiteralFieldAt(t: Table, bits: nat, data: seq<u8>): Result<(Field, nat), DecodeError> {
    match IntegerAt(bits, data)
    case Err(e) => Err(e)
    case Ok((idx, read)) =>
      IntegerSize(bits, data);
      match (if idx == 0 then StringAt(data[read..])
             else match FieldAt(t, idx) case None => Err(IndexNotFound) case Some(f) => Ok((f.name, 0)))
      case Err(e) => Err(e)
      case Ok((name, more)) =>
        StringSize(data[read..]);
        match StringAt(data[read + more..])
        case Err(e) => Err(e)
        case Ok((value, last)) => Ok((Field(name, value), read + more + last))
  }

  /** What the bytes at the front of `data` mean to a decoder with table t. */
  ghost function HeaderAt(t: Table, data: seq<u8>): Result<Decoded, DecodeError> {
    if data == [] then Err(TooSmall)
    else if Bit(data[0], 7) then
      match IntegerAt(7, data)
      case Err(e) => Err(e)
      case Ok((idx, read)) =>
        match FieldAt(t, idx)
        case None => Err(IndexNotFound)
        case Some(f) => Ok(Decoded(read, f, t))
    else if Bit(data[0], 6) then
      match LiteralFieldAt(t, 6, data)
      case Err(e) => Err(e)
      case Ok((f, read)) => Ok(Decoded(read, f, Inserted(t, f)))
    else if Bit(data[0], 5) then
      match IntegerAt(5, data)
      case Err(e) => Err(e)
      case Ok((size, read)) =>
        if size > t.permittedSize then Err(TableTooSmall)
        else Ok(Decoded(read, Field([], []), Resized(t, size)))
    else
      match LiteralFieldAt(t, 4, data)
      case Err(e) => Err(e)
      case Ok((f, read)) => Ok(Decoded(read, f, t))
  }

  lemma LiteralFieldSize(t: Table, bits: nat, data: seq<u8>)
    ensures LiteralFieldAt(t, bits, data).Ok? ==> 1 <= LiteralFieldAt(t, bits, data).value.1 <= |data|
  {
    hide IntegerAt, StringAt, FieldAt;
    IntegerSize(bits, data);
    if LiteralFieldAt(t, bits, data).Ok? {
      var (idx, read) := IntegerAt(bits, data).value;
      StringSize(data[read..]);
      var more := if idx == 0 then StringAt(data[read..]).value.1 else 0;
      StringSize(data[read + more..]);
    }
  }

  lemma HeaderSize(t: Table, data: seq<u8>)
    ensures HeaderAt(t, data).Ok? ==> 1 <= HeaderAt(t, data).value.read <= |data|
  {
    hide IntegerAt, LiteralFieldAt, FieldAt, Inserted, Resized, Bit;
    IntegerSize(7, data);
    IntegerSize(5, data);
    LiteralFieldSize(t, 6, data);
    LiteralFieldSize(t, 4, data);
  }

  /** The two literal branches of `read_header` up to the table update. */
  method ReadLiteralField(table: HeaderTable, bits: u8, data: seq<u8>, name: Buffer, value: Buffer)
    returns (r: Result<nat, DecodeError>)
    requires table.dynamic.Valid() && bits <= 7 && |data| < TWO_64
    requires name.Valid() && value.Valid() && name.Repr() !! value.Repr()
    requires name.Contents() == [] && value.Contents() == []
    modifies name.Repr(), value.Repr()
    ensures name.Valid() && fresh(name.Repr() - old(name.Repr()))
    ensures value.Valid() && fresh(value.Repr() - old(value.Repr())) && name.Repr() !! value.Repr()
    ensures r.Ok? ==> LiteralFieldAt(table.dynamic.Abstract(), bits, data)
                      == Ok((Field(name.Contents(), value.Contents()), r.value))
    ensures r.Err? ==> LiteralFieldAt(table.dynamic.Abstract(), bits, data) == Err(r.error)
  {
    hide IntegerAt, StringAt, FieldAt, Flatten, TotalSize;
    IntegerSize(bits, data);
    var integer := ParseInteger(bits, data);
    if integer.Err? {
      return Err(integer.error);
    }
    var (idx, read) := integer.value;
    if idx == 0 {
      StringSize(data[read..]);
      var parsed := ParseString(data[read..], name);
      if parsed.Err? {
        return Err(parsed.error);
      }
      read := read + parsed.value;
    } else {
      var found := table.Get(idx, name, null);
      if found.Err? {
        return Err(IndexNotFound);
      }
      assert name.Contents() == FieldAt(table.dynamic.Abstract(), idx).value.name;
    }
    ghost var n := name.Contents();
    var parsed := ParseString(data[read..], value);
    if parsed.Err? {
      return Err(parsed.error);
    }
    assert name.Contents() == n;
    return Ok(read + parsed.value);
  }

  /** The branch of `read_header` for an indexed field. */
  method ReadIndexed(table: HeaderTable, data: seq<u8>, name: Buffer, value: Buffer)
    returns (r: Result<nat, DecodeError>)
    requires table.dynamic.Valid() && |data| < TWO_64
    requires name.Valid() && value.Valid() && name.Repr() !! value.Repr()
    requires name.Contents() == [] && value.Contents() == []
    modifies name.Repr(), value.Repr()
    ensures name.Valid() && fresh(name.Repr() - old(name.Repr()))
    ensures value.Valid() && fresh(value.Repr() - old(value.Repr())) && name.Repr() !! value.Repr()
    ensures r == (match IntegerAt(7, data)
                  case Err(e) => Err(e)
                  case Ok((idx, read)) =>
                    if FieldAt(table.dynamic.Abstract(), idx).None? then Err(IndexNotFound) else Ok(read))
    ensures r.Ok? ==> FieldAt(table.dynamic.Abstract(), IntegerAt(7, data).value.0)
                      == Some(Field(name.Contents(), value.Contents()))
  {
    hide IntegerAt, FieldAt, Flatten, TotalSize;
    var integer := ParseInteger(7, data);
    if integer.Err? {
      return Err(integer.error);
    }
    var (idx, read) := integer.value;
    var found := table.Get(idx, name, value);
    if found.Err? {
      return Err(IndexNotFound);
    }
    assert Field(name.Contents(), value.Contents()) == FieldAt(table.dynamic.Abstract(), idx).value;
    return Ok(read);
  }

  method ReadHeader(table: HeaderTable, data: seq<u8>, name: Buffer, value: Buffer)
    returns (r: Result<nat, DecodeError>)
    requires table.dynamic.Valid() && |data| < TWO_64
    requires name.Valid() && value.Valid() && name.Repr() !! value.Repr()
    modifies name.Repr(), value.Repr(), table.dynamic
    ensures name.Valid() && fresh(name.Repr() - old(name.Repr()))
    ensures value.Valid() && fresh(value.Repr() - old(value.Repr())) && name.Repr() !! value.Repr()
    ensures table.dynamic.Valid()
    ensures r.Ok? ==> HeaderAt(old(table.dynamic.Abstract()), data)
                      == Ok(Decoded(r.value, Field(name.Contents(), value.Contents()), table.dynamic.Abstract()))
    ensures r.Err? ==> HeaderAt(old(table.dynamic.Abstract()), data) == Err(r.error)
    ensures r.Err? ==> table.dynamic.Abstract() == old(table.dynamic.Abstract())
  {
    hide IntegerAt, StringAt, FieldAt, Flatten, TotalSize, LiteralFieldAt, Bit, Inserted, Resized, Bounded;
    hide Buffer.Contents, Buffer.Valid;
    if |data| == 0 {
      return Err(TooSmall);
    }
    var tag := data[0];
    value.Clear();
    name.Clear();

    if Bit(tag, 7) {
      r := ReadIndexed(table, data, name, value);
    } else if Bit(tag, 6) {
      var field := ReadLiteralField(table, 6, data, name, value);
      if field.Err? {
        return Err(field.error);
      }
      var n := name.AsSlice();
      var v := value.AsSlice();
      table.dynamic.Insert(n, v);
      return Ok(field.value);
    } else if Bit(tag, 5) {
      var integer := ParseInteger(5, data);
      if integer.Err? {
        return Err(integer.error);
      }
      var (size, read) := integer.value;
      if size > table.dynamic.permittedSize {
        return Err(TableTooSmall);
      }
      table.dynamic.Resize(size);
      return Ok(read);
    } else {
      r := ReadLiteralField(table, 4, data, name, value);
    }
  }

  // ---------- a header block ----------

  /** How far a decoder got with a block: the table and the fields so far, the bytes it has not
      consumed, and why it stopped before the end. */
  datatype Progress = Progress(table: Table, fields: seq<Field>, pending: seq<u8>, stopped: Option<DecodeError>)

  /** Decodes representations from the front of `data` until it ends or one fails. */
  ghost function Drain(t: Table, data: seq<u8>): Progress
    decreases |data|
  {
    if data == [] then Progress(t, [], [], None)
    else
      match HeaderAt(t, data)
      case Err(e) => Progress(t, [], data, Some(e))
      case Ok(d) =>
        HeaderSize(t, data);
        var p := Drain(d.table, data[d.read..]);
        p.(fields := [d.field] + p.fields)
  }

  /** The loop of `run_test`, stopping where that panics. */
  method DecodeBlock(table: HeaderTable, code: seq<u8>)
    returns (fields: seq<Field>, rest: seq<u8>, stopped: Option<DecodeError>)
    requires table.dynamic.Valid() && |code| < TWO_64
    modifies table.dynamic
    ensures table.dynamic.Valid()
    ensures Drain(old(table.dynamic.Abstract()), code) == Progress(table.dynamic.Abstract(), fields, rest, stopped)
  {
    hide HeaderAt, Flatten, TotalSize, Drain;
    fields := [];
    stopped := None;
    var name := new Buffer(64);
    var value := new Buffer(64);
    rest := code;
    ghost var start := table.dynamic.Abstract();
    DrainStep([], start, code);
    while |rest| > 0
      invariant table.dynamic.Valid() && |rest| <= |code|
      invariant fresh(name.Repr()) && fresh(value.Repr()) && name.Repr() !! value.Repr()
      invariant name.Valid() && value.Valid()
      invariant Prefixed(fields, Drain(table.dynamic.Abstract(), rest)) == Drain(start, code)
    {
      HeaderSize(table.dynamic.Abstract(), rest);
      DrainStep(fields, table.dynamic.Abstract(), rest);
      var read := ReadHeader(table, rest, name, value);
      if read.Err? {
        stopped := Some(read.error);
        return;
      }
      var n := name.AsSlice();
      var v := value.AsSlice();
      fields := fields + [Field(n, v)];
      rest := rest[read.value..];
    }
    DrainStep(fields, table.dynamic.Abstract(), rest);
  }

  function Prefixed(fields: seq<Field>, p: Progress): Progress {
    p.(fields := fields + p.fields)
  }

  /** One turn of the loop. */
  lemma DrainStep(done: seq<Field>, t: Table, data: seq<u8>)
    ensures Prefixed([], Drain(t, data)) == Drain(t, data)
    ensures data == [] ==> Prefixed(done, Drain(t, data)) == Progress(t, done, [], None)
    ensures data != [] && HeaderAt(t, data).Err? ==>
              Prefixed(done, Drain(t, data)) == Progress(t, done, data, Some(HeaderAt(t, data).error))
    ensures data != [] && HeaderAt(t, data).Ok? ==>
              var d := HeaderAt(t, data).value;
              && d.read <= |data|
              && Prefixed(done, Drain(t, data)) == Prefixed(done + [d.field], Drain(d.table, data[d.read..]))
  {
    hide HeaderAt;
    HeaderSize(t, data);
    if data != [] && HeaderAt(t, data).Ok? {
      var d := HeaderAt(t, data).value;
      var p := Drain(d.table, data[d.read..]);
      assert done + ([d.field] + p.fields) == done + [d.field] + p.fields;
    }
  }
}
