/** Request bodies of HTTP/1.1 (http11.rs): the reader that undoes the chunked transfer coding. */
module Http11Body {
  import opened Wrappers
  import opened Words
  import opened Utf8
  import opened Numerals

  const CR: u8 := 13
  const LF: u8 := 10

  // ---------- the buffered source ----------

  /** The number of bytes up to and including the first line feed, or all of them. */
  function LineLength(s: seq<u8>): (n: nat)
    ensures n <= |s|
    ensures forall i :: 0 <= i < n - 1 ==> s[i] != LF
    ensures n < |s| ==> n > 0 && s[n - 1] == LF
    ensures s != [] ==> n > 0
  {
    if s == [] then 0 else if s[0] == LF then 1 else 1 + LineLength(s[1..])
  }

  /** `BufReader`: lines are read whole, other reads may come up short but make progress. */
  class Source {
    var rest: seq<u8>

    constructor (data: seq<u8>)
      ensures rest == data
    {
      rest := data;
    }

    /** `read_line` or `read_until(b'\n')`, as bytes. */
    method ReadLine() returns (line: seq<u8>)
      modifies this
      ensures line == old(rest)[..LineLength(old(rest))]
      ensures rest == old(rest)[LineLength(old(rest))..]
    {
      var n := LineLength(rest);
      line := rest[..n];
      rest := rest[n..];
    }

    /** `read` into a slice of n bytes. */
    method Read(n: nat) returns (bytes: seq<u8>)
      modifies this
      ensures old(rest) == bytes + rest && |bytes| <= n
      ensures n > 0 && old(rest) != [] ==> bytes != []
    {
      var limit := if n < |rest| then n else |rest|;
      var k := 0;
      if limit > 0 {
        k :| 1 <= k <= limit;
      }
      bytes := rest[..k];
      rest := rest[k..];
    }
  }

  // ---------- the body reader ----------

  datatype IoError = InvalidData | InvalidLength

  /** What a read has to work with: the bytes left of the current chunk or body, 0 at the end, and
      the source after the lines that had to be read to find that out. */
  ghost function Advance(contentLength: Option<nat>, chunked: bool, rest: seq<u8>): (Result<nat, IoError>, seq<u8>) {
    if contentLength.Some? then (Ok(contentLength.value), rest)
    else if !chunked then (Ok(0), rest)
    else
      var first := rest[..LineLength(rest)];
      var afterFirst := rest[LineLength(rest)..];
      if !IsUtf8(first) then (Err(InvalidData), afterFirst)
      else
        var second := afterFirst[..LineLength(afterFirst)];
        var afterSecond := afterFirst[LineLength(afterFirst)..];
        if !IsUtf8(second) then (Err(InvalidData), afterSecond)
        else match ParseUsize(TrimEnd(second), 16)
             case None => (Err(InvalidLength), afterSecond)
             case Some(len) => (Ok(len), afterSecond)
  }

  class Body {
    const reader: Source
    /** Bytes left of the current chunk or of the body; never Some(0). */
    var contentLength: Option<nat>
    const chunked: bool

    constructor (reader: Source, contentLength: Option<nat>, chunked: bool)
      requires contentLength != Some(0)
      ensures this.reader == reader && this.contentLength == contentLength && this.chunked == chunked
    {
      this.reader := reader;
      this.contentLength := contentLength;
      this.chunked := chunked;
    }

    /** `Read::read` into a buffer of `capacity` bytes. */
    method Read(capacity: nat) returns (r: Result<seq<u8>, IoError>)
      requires contentLength != Some(0)
      modifies this, reader
      ensures contentLength != Some(0)
      ensures var (len, after) := old(Advance(contentLength, chunked, reader.rest));
              match len
              case Err(e) => r == Err(e) && reader.rest == after && contentLength == old(contentLength)
              case Ok(n) =>
                && r.Ok? && after == r.value + reader.rest
                && |r.value| <= n && |r.value| <= capacity
                && (n > 0 && capacity > 0 && after != [] ==> r.value != [])
                && contentLength == (if |r.value| == n then None else Some(n - |r.value|))
    {
      hide TrimEnd, IsUtf8, ParseUsize, LineLength;
      var len;
      if contentLength.Some? {
        len := contentLength.value;
      } else if !chunked {
        return Ok([]);
      } else {
        var line := reader.ReadLine();
        if !IsUtf8(line) {
          return Err(InvalidData);
        }
        line := reader.ReadLine();
        if !IsUtf8(line) {
          return Err(InvalidData);
        }
        var parsed := ParseUsize(TrimEnd(line), 16);
        if parsed.None? {
          return Err(InvalidLength);
        }
        len := parsed.value;
        if len == 0 {
          return Ok([]);
        }
      }
      var limit := if capacity > len then len else capacity;
      var bytes := reader.Read(limit);
      contentLength := if len == |bytes| then None else Some(len - |bytes|);
      return Ok(bytes);
    }
  }

  type HeaderMap = map<seq<u8>, seq<seq<u8>>>

  const TRANSFER_ENCODING: seq<u8> := Ascii("transfer-encoding")
  const CHUNKED: seq<u8> := Ascii("chunked")
  const CONTENT_LENGTH: seq<u8> := Ascii("content-length")

  predicate IsChunked(headers: HeaderMap) {
    TRANSFER_ENCODING in headers && CHUNKED in headers[TRANSFER_ENCODING]
  }

  lemma ChunkedMeans(headers: HeaderMap)
    ensures IsChunked(headers) <==>
            Ascii("transfer-encoding") in headers && Ascii("chunked") in headers[Ascii("transfer-encoding")]
  {
  }

  /** The declared length of a body that is not chunked; no header, or one that is not UTF-8, is 0. */
  function DeclaredLength(headers: HeaderMap): Option<usize>
    requires CONTENT_LENGTH in headers ==> headers[CONTENT_LENGTH] != []
  {
    if CONTENT_LENGTH in headers && IsUtf8(headers[CONTENT_LENGTH][0]) then ParseUsize(headers[CONTENT_LENGTH][0], 10)
    else Some(0)
  }

  /** `get_body_reader`: decides on the framing and reads the first chunk's size. */
  method GetBodyReader(reader: Source, headers: HeaderMap) returns (r: Result<Body, ()>)
    requires CONTENT_LENGTH in headers ==> headers[CONTENT_LENGTH] != []
    modifies reader
    ensures r.Ok? ==> fresh(r.value) && r.value.reader == reader && r.value.contentLength != Some(0)
    ensures !IsChunked(headers) ==>
              && reader.rest == old(reader.rest)
              && (r.Ok? <==> DeclaredLength(headers).Some?)
              && (r.Ok? ==> !r.value.chunked &&
                            r.value.contentLength == (if DeclaredLength(headers) == Some(0) then None
                                                      else Some(DeclaredLength(headers).value)))
    ensures IsChunked(headers) ==>
              var line := old(reader.rest)[..LineLength(old(reader.rest))];
              && reader.rest == old(reader.rest)[|line|..]
              && (r.Ok? <==> IsUtf8(line) && ParseUsize(TrimEnd(line), 16).Some?)
              && (r.Ok? ==> var n := ParseUsize(TrimEnd(line), 16).value;
                            && r.value.chunked == (n != 0)
                            && r.value.contentLength == (if n == 0 then None else Some(n)))
  {
    if TRANSFER_ENCODING in headers && CHUNKED in headers[TRANSFER_ENCODING] {
      var line := reader.ReadLine();
      if !IsUtf8(line) {
        return Err(());
      }
      var len := ParseUsize(TrimEnd(line), 16);
      if len.None? {
        return Err(());
      }
      var body;
      if len.value == 0 {
        body := new Body(reader, None, false);
      } else {
        body := new Body(reader, Some(len.value), true);
      }
      return Ok(body);
    }
    var len := DeclaredLength(headers);
    if len.None? {
      return Err(());
    }
    var body := new Body(reader, if len.value == 0 then None else Some(len.value), false);
    return Ok(body);
  }

  // ---------- the chunked coding ----------

  /** A chunk without extensions: its size, a hexadecimal numeral as its sender chose to write it, and data. */
  datatype Chunk = Chunk(size: seq<u8>, data: seq<u8>)

  ghost predicate WellFormed(c: Chunk) {
    c.data != [] && |c.data| < TWO_64 && Numeral(c.size, |c.data|, 16)
  }

  /** Section 7.1 of RFC 9112: chunks, then the last chunk's size line, written with the digits `last`. */
  function Wire(chunks: seq<Chunk>, last: seq<u8>): seq<u8> {
    if chunks == [] then last + [CR, LF]
    else chunks[0].size + [CR, LF] + chunks[0].data + [CR, LF] + Wire(chunks[1..], last)
  }

  function Payload(chunks: seq<Chunk>): seq<u8> {
    if chunks == [] then [] else chunks[0].data + Payload(chunks[1..])
  }

  lemma {:induction false} LineEnds(s: seq<u8>, rest: seq<u8>)
    requires forall i :: 0 <= i < |s| ==> s[i] != LF
    ensures LineLength(s + [LF] + rest) == |s| + 1
    decreases |s|
  {
    if s == [] {
      assert (s + [LF] + rest)[0] == LF;
    } else {
      assert (s + [LF] + rest)[1..] == s[1..] + [LF] + rest;
      LineEnds(s[1..], rest);
    }
  }

  /** A size line, with its end of line, is read whole and understood. */
  lemma SizeLine(size: seq<u8>, n: nat, rest: seq<u8>)
    requires Numeral(size, n, 16) && n < TWO_64
    ensures var wire := size + [CR, LF] + rest;
            var line := wire[..LineLength(wire)];
            && wire[LineLength(wire)..] == rest
            && IsUtf8(line) && ParseUsize(TrimEnd(line), 16) == Some(n)
  {
    NumeralBytes(size, n, 16);
    var wire := size + [CR, LF] + rest;
    assert wire == (size + [CR]) + [LF] + rest;
    LineEnds(size + [CR], rest);
    hide TrimEnd, LineLength, IsUtf8, ParseUsize, Numeral;
    ParseMeans(size, n, 16);
    var line := wire[..LineLength(wire)];
    assert line == size + [CR, LF];
    AsciiIsUtf8(line);
    TrimLine(size);
  }

  /** The end of a line goes, a digit stays. */
  lemma TrimLine(size: seq<u8>)
    requires size != [] && 48 <= size[|size| - 1] <= 102
    ensures TrimEnd(size + [CR, LF]) == size
  {
    hide SpaceAtEnd;
    LastByte(size);
    assert TrimEnd(size) == size;
    LastByte(size + [CR]);
    assert (size + [CR])[..|size|] == size;
    assert TrimEnd(size + [CR]) == size;
    var line := size + [CR, LF];
    LastByte(line);
    assert line[..|line| - 1] == size + [CR];
  }

  lemma LastByte(s: seq<u8>)
    requires s != []
    ensures var last := s[|s| - 1];
            SpaceAtEnd(s) > 0 && last < 0x80 <==> 9 <= last <= 13 || last == 32
    ensures s[|s| - 1] < 0x80 ==> SpaceAtEnd(s) <= 1
  {
  }

  /** What goes wrong between two chunks: the rest of the line the last chunk ends on and then the size
      line are taken, and the size line is a number or the read fails. */
  lemma SizeLineErrors(line: seq<u8>, size: seq<u8>, rest: seq<u8>)
    requires LF !in line && LF !in size
    ensures var (len, after) := Advance(None, true, line + [LF] + size + [LF] + rest);
            && (!IsUtf8(line + [LF]) ==> len == Err(InvalidData) && after == size + [LF] + rest)
            && (IsUtf8(line + [LF]) ==> after == rest)
            && (IsUtf8(line + [LF]) && !IsUtf8(size + [LF]) ==> len == Err(InvalidData))
            && (IsUtf8(line + [LF]) && IsUtf8(size + [LF]) ==>
                  && (len == Err(InvalidLength) <==> !SaysSize(TrimEnd(size + [LF])))
                  && (len.Err? ==> len == Err(InvalidLength))
                  && (len.Ok? ==> Says(TrimEnd(size + [LF]), len.value, 16)))
  {
    hide IsUtf8, TrimEnd, LineLength, ParseUsize, Says, SaysSize;
    var next := size + [LF] + rest;
    var wire := line + [LF] + next;
    assert line + [LF] + size + [LF] + rest == wire;
    LineEnds(line, next);
    assert wire[..|line| + 1] == line + [LF] && wire[|line| + 1..] == next;
    LineEnds(size, rest);
    assert next[..|size| + 1] == size + [LF] && next[|size| + 1..] == rest;
    var text := TrimEnd(size + [LF]);
    SizeMeans(text);
  }

  /** A number that fits into 64 bits. */
  ghost predicate SaysSize(s: seq<u8>) {
    exists n: nat :: n < TWO_64 && Says(s, n, 16)
  }

  lemma SizeMeans(s: seq<u8>)
    ensures ParseUsize(s, 16).Some? <==> SaysSize(s)
    ensures ParseUsize(s, 16).Some? ==> Says(s, ParseUsize(s, 16).value, 16)
  {
    hide ParseUsize, Says;
    if ParseUsize(s, 16).Some? {
      ParseMeans(s, ParseUsize(s, 16).value, 16);
    } else if SaysSize(s) {
      var n: nat :| n < TWO_64 && Says(s, n, 16);
      ParseMeans(s, n, 16);
    }
  }

  /** The length of a body that is not chunked: what its first content-length says, in decimal, and 0
      without one that is text. */
  lemma DeclaredMeans(headers: HeaderMap, n: nat)
    requires Ascii("content-length") in headers ==> headers[Ascii("content-length")] != []
    ensures Ascii("content-length") !in headers ==> DeclaredLength(headers) == Some(0)
    ensures Ascii("content-length") in headers ==>
              var value := headers[Ascii("content-length")][0];
              && (!IsUtf8(value) ==> DeclaredLength(headers) == Some(0))
              && (IsUtf8(value) ==> (DeclaredLength(headers) == Some(n) <==> n < TWO_64 && Says(value, n, 10)))
  {
    hide IsUtf8, ParseUsize, Says;
    if Ascii("content-length") in headers {
      ParseMeans(headers[Ascii("content-length")][0], n, 10);
    }
  }

  /** Where a body reader stands in a chunked body: the chunk data and the chunks still to come. */
  ghost predicate Stands(contentLength: Option<nat>, rest: seq<u8>, data: seq<u8>, chunks: seq<Chunk>,
                         last: seq<u8>, beyond: seq<u8>)
  {
    && (contentLength == if data == [] then None else Some(|data|))
    && rest == data + [CR, LF] + Wire(chunks, last) + beyond
    && (forall c :: c in chunks ==> WellFormed(c))
    && Numeral(last, 0, 16)
  }

  lemma WireStep(chunks: seq<Chunk>, last: seq<u8>)
    ensures chunks == [] ==> Wire(chunks, last) == last + [CR, LF]
    ensures chunks != [] ==>
              Wire(chunks, last) == chunks[0].size + [CR, LF] + chunks[0].data + [CR, LF] + Wire(chunks[1..], last)
  {
  }

  /** Between chunks, the next read finds the next chunk, or the end. */
  lemma AdvanceToNext(rest: seq<u8>, chunks: seq<Chunk>, last: seq<u8>, beyond: seq<u8>)
    requires Stands(None, rest, [], chunks, last, beyond)
    ensures Advance(None, true, rest) ==
            if chunks == [] then (Ok(0), beyond)
            else (Ok(|chunks[0].data|), chunks[0].data + [CR, LF] + Wire(chunks[1..], last) + beyond)
  {
    hide Wire, IsUtf8, ParseUsize, TrimEnd, Numeral, LineLength;
    WireStep(chunks, last);
    var after := Wire(chunks, last) + beyond;
    assert rest == [CR] + [LF] + after;
    LineEnds([CR], after);
    var first := rest[..LineLength(rest)];
    assert first == [CR, LF] && rest[LineLength(rest)..] == after;
    AsciiIsUtf8(first);
    if chunks == [] {
      assert after == last + [CR, LF] + beyond;
      SizeLine(last, 0, beyond);
    } else {
      var c := chunks[0];
      assert c in chunks;
      var next := c.data + [CR, LF] + Wire(chunks[1..], last) + beyond;
      assert after == c.size + [CR, LF] + next;
      SizeLine(c.size, |c.data|, next);
    }
  }

  /** One read of a chunked body delivers a piece of the payload and stands where the next piece is;
      it delivers nothing only at the end. */
  method ReadPiece(body: Body, capacity: nat, ghost data: seq<u8>, ghost chunks: seq<Chunk>,
                   ghost last: seq<u8>, ghost beyond: seq<u8>)
    returns (piece: seq<u8>, ghost data': seq<u8>, ghost chunks': seq<Chunk>)
    requires body.chunked && capacity > 0
    requires Stands(body.contentLength, body.reader.rest, data, chunks, last, beyond)
    modifies body, body.reader
    ensures piece + data' + Payload(chunks') == data + Payload(chunks)
    ensures |piece| <= capacity
    ensures piece != [] ==> Stands(body.contentLength, body.reader.rest, data', chunks', last, beyond)
    ensures piece == [] ==> data' == [] && chunks' == [] && body.reader.rest == beyond
  {
    hide Advance, Stands, Payload, Wire, Numeral, WellFormed;
    ghost var current, tail;
    current, chunks', tail := CurrentChunk(body.contentLength, body.reader.rest, data, chunks, last, beyond);
    var r := body.Read(capacity);
    piece := r.value;
    data' := current[|piece|..];
    SplitPiece(current, tail, piece, body.reader.rest);
    assert piece + data' + Payload(chunks') == current + Payload(chunks');
    if piece != [] {
      StandsWithin(body.contentLength, body.reader.rest, data', chunks', last, beyond);
    }
  }

  lemma StandsWithin(contentLength: Option<nat>, rest: seq<u8>, data: seq<u8>, chunks: seq<Chunk>,
                     last: seq<u8>, beyond: seq<u8>)
    requires contentLength == if data == [] then None else Some(|data|)
    requires rest == data + ([CR, LF] + Wire(chunks, last) + beyond)
    requires forall c :: c in chunks ==> WellFormed(c)
    requires Numeral(last, 0, 16)
    ensures Stands(contentLength, rest, data, chunks, last, beyond)
  {
    hide Wire, Numeral, WellFormed;
    assert rest == data + [CR, LF] + Wire(chunks, last) + beyond;
  }

  /** The data the next read draws on, what is behind it, and where any piece of it leaves the reader. */
  lemma CurrentChunk(contentLength: Option<nat>, rest: seq<u8>, data: seq<u8>, chunks: seq<Chunk>,
                     last: seq<u8>, beyond: seq<u8>)
    returns (current: seq<u8>, left: seq<Chunk>, tail: seq<u8>)
    requires Stands(contentLength, rest, data, chunks, last, beyond)
    ensures contentLength != Some(0)
    ensures Advance(contentLength, true, rest) == (Ok(|current|), current + tail)
    ensures current + Payload(left) == data + Payload(chunks)
    ensures current == [] ==> left == [] && tail == beyond
    ensures current != [] ==> tail == [CR, LF] + Wire(left, last) + beyond
    ensures forall c :: c in left ==> WellFormed(c)
    ensures Numeral(last, 0, 16)
  {
    hide Advance, Wire, Numeral, Payload;
    if data != [] {
      WithinChunk(contentLength, rest);
      current, left, tail := data, chunks, [CR, LF] + Wire(chunks, last) + beyond;
      assert rest == current + tail;
    } else {
      AdvanceToNext(rest, chunks, last, beyond);
      PayloadFrom(data, chunks);
      NoPayload();
      if chunks == [] {
        current, left, tail := [], [], beyond;
        assert current + tail == beyond;
      } else {
        assert chunks[0] in chunks;
        current, left := chunks[0].data, chunks[1..];
        tail := [CR, LF] + Wire(left, last) + beyond;
        assert current + tail == current + [CR, LF] + Wire(left, last) + beyond;
      }
    }
  }

  /** A piece from the front of the current data leaves the rest of it. */
  lemma SplitPiece(current: seq<u8>, tail: seq<u8>, piece: seq<u8>, rest: seq<u8>)
    requires current + tail == piece + rest && |piece| <= |current|
    ensures current == piece + current[|piece|..] && rest == current[|piece|..] + tail
  {
    assert piece == (piece + rest)[..|piece|] == (current + tail)[..|piece|] == current[..|piece|];
    assert rest == (piece + rest)[|piece|..] == (current + tail)[|piece|..];
  }

  lemma PayloadFrom(data: seq<u8>, chunks: seq<Chunk>)
    ensures data == [] && chunks != [] ==> data + Payload(chunks) == chunks[0].data + Payload(chunks[1..])
    ensures data == [] && chunks == [] ==> data + Payload(chunks) == []
  {
  }

  lemma NoPayload()
    ensures Payload([]) == []
  {
  }

  lemma NotChunked(contentLength: Option<nat>, rest: seq<u8>)
    ensures contentLength.None? ==> Advance(contentLength, false, rest) == (Ok(0), rest)
  {
  }

  lemma WithinChunk(contentLength: Option<nat>, rest: seq<u8>)
    ensures contentLength.Some? ==> Advance(contentLength, true, rest) == (Ok(contentLength.value), rest)
  {
  }

  /** The first size line, and where the body reader stands after it. */
  lemma FirstChunk(rest: seq<u8>, chunks: seq<Chunk>, last: seq<u8>, beyond: seq<u8>)
    returns (data: seq<u8>, left: seq<Chunk>)
    requires forall c :: c in chunks ==> WellFormed(c)
    requires Numeral(last, 0, 16)
    requires rest == Wire(chunks, last) + beyond
    ensures var line := rest[..LineLength(rest)];
            && IsUtf8(line)
            && ParseUsize(TrimEnd(line), 16) == Some(|data|)
            && (data == [] ==> chunks == [] && rest[|line|..] == beyond)
            && (data != [] ==> Stands(Some(|data|), rest[|line|..], data, left, last, beyond))
    ensures data + Payload(left) == Payload(chunks)
    ensures chunks == [] ==> data == [] && left == []
  {
    if chunks == [] {
      data, left := [], [];
      assert rest == last + [CR, LF] + beyond;
      SizeLine(last, 0, beyond);
    } else {
      assert chunks[0] in chunks;
      data, left := chunks[0].data, chunks[1..];
      var next := data + [CR, LF] + Wire(left, last) + beyond;
      assert rest == chunks[0].size + [CR, LF] + next;
      SizeLine(chunks[0].size, |data|, next);
    }
  }

  /** A chunked body read to its end, with buffers of any sizes, is exactly the data of its chunks,
      and what follows the last size line is left in the source. */
  method ReadToEnd(reader: Source, headers: HeaderMap, capacity: nat -> nat,
                   ghost chunks: seq<Chunk>, ghost last: seq<u8>, ghost beyond: seq<u8>)
    returns (payload: seq<u8>)
    requires Ascii("transfer-encoding") in headers && Ascii("chunked") in headers[Ascii("transfer-encoding")]
    requires CONTENT_LENGTH in headers ==> headers[CONTENT_LENGTH] != []
    requires forall i :: capacity(i) > 0
    requires forall c :: c in chunks ==> WellFormed(c)
    requires Numeral(last, 0, 16)
    requires reader.rest == Wire(chunks, last) + beyond
    modifies reader
    ensures payload == Payload(chunks)
    ensures reader.rest == beyond
  {
    hide IsUtf8, ParseUsize, TrimEnd, LineLength, Advance, IsChunked, DeclaredLength, Wire, Payload, Numeral;
    ChunkedMeans(headers);
    ghost var data, left := FirstChunk(reader.rest, chunks, last, beyond);
    var made := GetBodyReader(reader, headers);
    var body := made.value;
    payload := [];
    if !body.chunked {
      NoPayload();
      NotChunked(body.contentLength, reader.rest);
      var piece := body.Read(capacity(0));
      return piece.value;
    }
    var i := 0;
    while true
      invariant body.chunked && fresh(body) && body.reader == reader
      invariant Stands(body.contentLength, reader.rest, data, left, last, beyond)
      invariant payload + data + Payload(left) == Payload(chunks)
      decreases |data| + |Payload(left)|
    {
      var piece;
      ghost var data', left';
      piece, data', left' := ReadPiece(body, capacity(i), data, left, last, beyond);
      assert payload + (data + Payload(left)) == payload + data + Payload(left);
      assert payload + (piece + data' + Payload(left')) == payload + piece + data' + Payload(left');
      if |piece| == 0 {
        assert payload + [] + [] + Payload([]) == payload by { NoPayload(); }
        return;
      }
      payload := payload + piece;
      data, left := data', left';
      i := i + 1;
    }
  }

  /** A body with a declared length, read with buffers of any sizes up to the first empty read, is that
      many bytes of the source, or all there are, and the rest is left. */
  method ReadDeclared(reader: Source, headers: HeaderMap, capacity: nat -> nat, ghost n: nat) returns (payload: seq<u8>)
    requires !IsChunked(headers) && Ascii("content-length") in headers
    requires var values := headers[Ascii("content-length")]; values != [] && n < TWO_64 && Numeral(values[0], n, 10)
    requires forall i :: capacity(i) > 0
    modifies reader
    ensures payload + reader.rest == old(reader.rest)
    ensures |payload| == if n <= |old(reader.rest)| then n else |old(reader.rest)|
  {
    hide IsUtf8, ParseUsize, LineLength, TrimEnd, Numeral, DeclaredLength, IsChunked;
    NumeralIsText(headers[CONTENT_LENGTH][0], n);
    DeclaredMeans(headers, n);
    var made := GetBodyReader(reader, headers);
    var body := made.value;
    payload := [];
    var i := 0;
    while true
      invariant fresh(body) && body.reader == reader && !body.chunked && body.contentLength != Some(0)
      invariant payload + reader.rest == old(reader.rest)
      invariant |payload| + (if body.contentLength.None? then 0 else body.contentLength.value) == n
      decreases n - |payload|
    {
      ghost var before := reader.rest;
      var piece := body.Read(capacity(i));
      assert payload + piece.value + reader.rest == payload + before;
      if |piece.value| == 0 {
        return;
      }
      payload := payload + piece.value;
      i := i + 1;
    }
  }

  lemma NumeralIsText(s: seq<u8>, n: nat)
    requires Numeral(s, n, 10)
    ensures IsUtf8(s) && Says(s, n, 10)
  {
    hide Numeral;
    NumeralBytes(s, n, 10);
    AsciiIsUtf8(s);
  }
}
