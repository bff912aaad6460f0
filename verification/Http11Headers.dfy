/** Header blocks of HTTP/1.1 (http11.rs): the parsing loop of the request reader and the printing
    loop of the response writer. */
module Http11Headers {
  import opened Wrappers
  import opened Words
  import opened Utf8
  import opened Streams
  import opened Http11Body

  const COLON: u8 := 58
  const SPACE: u8 := 32

  // ---------- one line ----------

  /** `strip_suffix` of a line feed and then of a carriage return. */
  function Stripped(line: seq<u8>): seq<u8> {
    var s := if line != [] && line[|line| - 1] == LF then line[..|line| - 1] else line;
    if s != [] && s[|s| - 1] == CR then s[..|s| - 1] else s
  }

  /** The position of the first colon. */
  function ColonIn(s: seq<u8>): (i: Option<nat>)
    ensures i.Some? ==> i.value < |s| && s[i.value] == COLON
    ensures i.Some? ==> forall k :: 0 <= k < i.value ==> s[k] != COLON
    ensures i.None? ==> COLON !in s
  {
    if s == [] then None
    else if s[0] == COLON then Some(0)
    else match ColonIn(s[1..]) case None => None case Some(i) => Some(i + 1)
  }

  /** `to_ascii_lowercase` */
  function Lower(s: seq<u8>): (t: seq<u8>)
    ensures |t| == |s|
  {
    seq(|s|, i requires 0 <= i < |s| => if 65 <= s[i] <= 90 then s[i] + 32 else s[i])
  }

  /** `is_ascii_whitespace` */
  predicate IsWhite(c: u8) {
    c == 32 || c == 9 || c == 10 || c == 12 || c == 13
  }

  function TrimStart(s: seq<u8>): seq<u8> {
    if s != [] && IsWhite(s[0]) then TrimStart(s[1..]) else s
  }

  /** The name and value of a line that has a colon. */
  function FieldOf(s: seq<u8>, colon: nat): (seq<u8>, seq<u8>)
    requires colon < |s|
  {
    (Lower(s[..colon]), TrimStart(s[colon + 1..]))
  }

  /** `entry(name).or_insert(vec).push(value)` */
  function Add(m: HeaderMap, name: seq<u8>, value: seq<u8>): HeaderMap {
    m[name := (if name in m then m[name] else []) + [value]]
  }

  // ---------- parsing ----------

  /** The header block at the front of a source, on top of the headers read so far, and what is left. */
  function BlockIn(m: HeaderMap, rest: seq<u8>): Result<(HeaderMap, seq<u8>), ()>
    decreases |rest|
  {
    var n := LineLength(rest);
    var line := Stripped(rest[..n]);
    if line == [] then Ok((m, rest[n..]))
    else
      match ColonIn(line)
      case None => Err(())
      case Some(colon) =>
        var (name, value) := FieldOf(line, colon);
        BlockIn(Add(m, name, value), rest[n..])
  }

  method ParseHeaders(reader: Source) returns (r: Result<HeaderMap, ()>)
    modifies reader
    ensures match BlockIn(map[], old(reader.rest))
            case Err(_) => r.Err?
            case Ok((m, after)) => r == Ok(m) && reader.rest == after
  {
    hide ColonIn, Lower, TrimStart, LineLength;
    var headers: HeaderMap := map[];
    while true
      invariant BlockIn(headers, reader.rest) == BlockIn(map[], old(reader.rest))
      decreases |reader.rest|
    {
      var raw := reader.ReadLine();
      var line := Stripped(raw);
      if |line| == 0 {
        return Ok(headers);
      }
      var colon := ColonIn(line);
      if colon.None? {
        return Err(());
      }
      var (name, value) := FieldOf(line, colon.value);
      headers := Add(headers, name, value);
    }
  }

  // ---------- printing ----------

  /** `{k}: {val}\r\n`; `shown` is how a byte string appears in text, itself when it is UTF-8. */
  function Line(shown: seq<u8> -> seq<u8>, name: seq<u8>, value: seq<u8>): seq<u8> {
    shown(name) + [COLON, SPACE] + shown(value) + [CR, LF]
  }

  function Lines(shown: seq<u8> -> seq<u8>, name: seq<u8>, values: seq<seq<u8>>): seq<u8> {
    if values == [] then [] else Line(shown, name, values[0]) + Lines(shown, name, values[1..])
  }

  /** The lines of all headers, the names in the order of `names`. */
  function Block(shown: seq<u8> -> seq<u8>, m: HeaderMap, names: seq<seq<u8>>): seq<u8>
    requires forall k :: k in names ==> k in m
  {
    if names == [] then [] else Lines(shown, names[0], m[names[0]]) + Block(shown, m, names[1..])
  }

  ghost predicate Distinct(names: seq<seq<u8>>) {
    forall i, j :: 0 <= i < j < |names| ==> names[i] != names[j]
  }

  /** `names` lists every name of the map once. */
  ghost predicate Enumerates(names: seq<seq<u8>>, m: HeaderMap) {
    Distinct(names) && forall k :: k in names <==> k in m
  }

  lemma {:induction false} LinesSnoc(shown: seq<u8> -> seq<u8>, name: seq<u8>, values: seq<seq<u8>>, value: seq<u8>)
    ensures Lines(shown, name, values + [value]) == Lines(shown, name, values) + Line(shown, name, value)
    decreases |values|
  {
    if values == [] {
      assert ([] + [value])[1..] == [];
    } else {
      assert (values + [value])[1..] == values[1..] + [value];
      LinesSnoc(shown, name, values[1..], value);
    }
  }

  lemma {:induction false} BlockSnoc(shown: seq<u8> -> seq<u8>, m: HeaderMap, names: seq<seq<u8>>, name: seq<u8>)
    requires name in m && forall k :: k in names ==> k in m
    ensures forall k :: k in names + [name] ==> k in m
    ensures Block(shown, m, names + [name]) == Block(shown, m, names) + Lines(shown, name, m[name])
    decreases |names|
  {
    hide Lines;
    var longer := names + [name];
    if names == [] {
      assert longer[1..] == [];
    } else {
      assert longer[0] == names[0] && longer[1..] == names[1..] + [name];
      BlockSnoc(shown, m, names[1..], name);
      assert Block(shown, m, longer) == Lines(shown, names[0], m[names[0]]) + Block(shown, m, longer[1..]);
    }
  }

  /** Prints the headers in whatever order the map gives them, and the empty line. */
  method WriteHeaders(headers: HeaderMap, shown: seq<u8> -> seq<u8>, writer: Writer) returns (ghost names: seq<seq<u8>>)
    modifies writer
    ensures Enumerates(names, headers)
    ensures writer.written == old(writer.written) + Block(shown, headers, names) + [CR, LF]
  {
    hide Lines, Line, Block;
    names := [];
    BlockNothing(shown, headers);
    var left := headers.Keys;
    while left != {}
      invariant left <= headers.Keys && Distinct(names)
      invariant forall k :: k in names <==> k in headers && k !in left
      invariant writer.written == old(writer.written) + Block(shown, headers, names)
      decreases |left|
    {
      var k :| k in left;
      var values := headers[k];
      ghost var before := writer.written;
      assert values[..0] == [];
      LinesNothing(shown, k);
      for i := 0 to |values|
        invariant writer.written == before + Lines(shown, k, values[..i])
      {
        writer.WriteAll(Line(shown, k, values[i]));
        LinesSnoc(shown, k, values[..i], values[i]);
        assert values[..i + 1] == values[..i] + [values[i]];
      }
      assert values[..|values|] == values;
      BlockSnoc(shown, headers, names, k);
      names := names + [k];
      left := left - {k};
    }
    writer.WriteAll([CR, LF]);
  }

  lemma BlockNothing(shown: seq<u8> -> seq<u8>, m: HeaderMap)
    ensures Block(shown, m, []) == []
  {
  }

  lemma LinesNothing(shown: seq<u8> -> seq<u8>, name: seq<u8>)
    ensures Lines(shown, name, []) == []
  {
  }

  // ---------- round trip ----------

  /** Names and values as the parser makes them: on one line; names in lower case without a colon,
      values without leading white space. */
  ghost predicate CleanName(name: seq<u8>) {
    LF !in name && COLON !in name && forall i :: 0 <= i < |name| ==> !(65 <= name[i] <= 90)
  }

  ghost predicate CleanValue(value: seq<u8>) {
    LF !in value && (value != [] ==> !IsWhite(value[0]))
  }

  ghost predicate Clean(m: HeaderMap) {
    forall k :: k in m && m[k] != [] ==> CleanName(k) && forall i :: 0 <= i < |m[k]| ==> CleanValue(m[k][i])
  }

  /** Text that survives: clean, and UTF-8. */
  ghost predicate GoodName(name: seq<u8>) {
    IsUtf8(name) && CleanName(name)
  }

  ghost predicate GoodValue(value: seq<u8>) {
    IsUtf8(value) && CleanValue(value)
  }

  /** All that is printed is UTF-8. */
  ghost predicate Text(m: HeaderMap) {
    forall k :: k in m && m[k] != [] ==> IsUtf8(k) && forall i :: 0 <= i < |m[k]| ==> IsUtf8(m[k][i])
  }

  ghost predicate Faithful(shown: seq<u8> -> seq<u8>) {
    forall s :: IsUtf8(s) ==> shown(s) == s
  }

  /** What a lossy display guarantees: it always makes text, and leaves alone what is text. */
  ghost predicate Displays(shown: seq<u8> -> seq<u8>) {
    Faithful(shown) && forall s :: IsUtf8(shown(s))
  }

  /** Parsing one printed line adds its field. */
  lemma LineRoundTrip(shown: seq<u8> -> seq<u8>, m: HeaderMap, name: seq<u8>, value: seq<u8>, rest: seq<u8>)
    requires Faithful(shown) && GoodName(name) && GoodValue(value)
    ensures BlockIn(m, Line(shown, name, value) + rest) == BlockIn(Add(m, name, value), rest)
  {
    hide IsUtf8;
    var wire := Line(shown, name, value) + rest;
    var body := name + [COLON, SPACE] + value;
    assert wire == (body + [CR]) + [LF] + rest;
    LineEnds(body + [CR], rest);
    var line := wire[..LineLength(wire)];
    assert line == body + [CR] + [LF];
    assert line[..|line| - 1] == body + [CR] && (body + [CR])[..|body|] == body;
    assert Stripped(line) == body;
    FieldRoundTrip(name, value);
    assert wire[LineLength(wire)..] == rest;
  }

  lemma FieldRoundTrip(name: seq<u8>, value: seq<u8>)
    requires GoodName(name) && GoodValue(value)
    ensures var body := name + [COLON, SPACE] + value;
            ColonIn(body) == Some(|name|) && FieldOf(body, |name|) == (name, value)
  {
    hide IsUtf8;
    var body := name + [COLON, SPACE] + value;
    assert body[|name|] == COLON;
    assert forall i :: 0 <= i < |name| ==> body[i] == name[i];
    assert body[..|name|] == name && Lower(name) == name;
    assert body[|name| + 1..] == [SPACE] + value;
    assert ([SPACE] + value)[1..] == value;
    assert TrimStart([SPACE] + value) == TrimStart(value) == value;
  }

  /** A name's values, as they are added one by one. */
  function AddAll(m: HeaderMap, name: seq<u8>, values: seq<seq<u8>>): HeaderMap {
    if values == [] then m else m[name := (if name in m then m[name] else []) + values]
  }

  lemma {:induction false} LinesRoundTrip(shown: seq<u8> -> seq<u8>, m: HeaderMap, name: seq<u8>,
                                          values: seq<seq<u8>>, rest: seq<u8>)
    requires Faithful(shown) && (values != [] ==> GoodName(name))
    requires forall i :: 0 <= i < |values| ==> GoodValue(values[i])
    ensures BlockIn(m, Lines(shown, name, values) + rest) == BlockIn(AddAll(m, name, values), rest)
    decreases |values|
  {
    hide BlockIn, Line, GoodName, GoodValue, Faithful;
    if values == [] {
      assert Lines(shown, name, values) + rest == rest;
    } else {
      var more := Lines(shown, name, values[1..]) + rest;
      assert Lines(shown, name, values) + rest == Line(shown, name, values[0]) + more;
      LineRoundTrip(shown, m, name, values[0], more);
      var next := Add(m, name, values[0]);
      LinesRoundTrip(shown, next, name, values[1..], rest);
      var before := if name in m then m[name] else [];
      assert before + [values[0]] + values[1..] == before + values;
      assert values == [values[0]] + values[1..];
      assert next[name] == before + [values[0]];
      assert AddAll(next, name, values[1..]) == AddAll(m, name, values) by {
        if values[1..] == [] {
          assert before + [values[0]] == before + values;
        }
      }
    }
  }

  /** The headers that have values; a name without any prints no line. */
  function Present(m: HeaderMap, names: set<seq<u8>>): HeaderMap {
    map k | k in m && k in names && m[k] != [] :: m[k]
  }

  lemma {:induction false} BlockRoundTrip(shown: seq<u8> -> seq<u8>, m: HeaderMap, done: set<seq<u8>>,
                                          names: seq<seq<u8>>, rest: seq<u8>)
    requires Faithful(shown) && Distinct(names)
    requires forall k :: k in names ==> k in m && k !in done
    requires forall k :: k in m && m[k] != [] ==> GoodName(k) && forall i :: 0 <= i < |m[k]| ==> GoodValue(m[k][i])
    ensures BlockIn(Present(m, done), Block(shown, m, names) + [CR, LF] + rest)
         == Ok((Present(m, done + set k | k in names), rest))
    decreases |names|
  {
    hide BlockIn, Lines, GoodName, GoodValue, Faithful;
    if names == [] {
      assert Block(shown, m, names) + [CR, LF] + rest == [CR, LF] + rest;
      EmptyLine(Present(m, done), rest);
      assert done + (set k | k in names) == done;
    } else {
      var name := names[0];
      assert name in names;
      var more := Block(shown, m, names[1..]) + [CR, LF] + rest;
      assert Block(shown, m, names) + [CR, LF] + rest == Lines(shown, name, m[name]) + more;
      LinesRoundTrip(shown, Present(m, done), name, m[name], more);
      assert [] + m[name] == m[name];
      assert name !in Present(m, done);
      assert AddAll(Present(m, done), name, m[name]) == Present(m, done + {name}) by {
        if m[name] == [] {
          assert Present(m, done) == Present(m, done + {name});
        } else {
          assert Present(m, done)[name := m[name]] == Present(m, done + {name});
        }
      }
      BlockRoundTrip(shown, m, done + {name}, names[1..], rest);
      assert done + {name} + (set k | k in names[1..]) == done + set k | k in names;
    }
  }

  lemma EmptyLine(m: HeaderMap, rest: seq<u8>)
    ensures BlockIn(m, [CR, LF] + rest) == Ok((m, rest))
  {
    var wire := [CR, LF] + rest;
    assert wire == [CR] + [LF] + rest;
    LineEnds([CR], rest);
    assert wire[..2] == [CR, LF];
    assert Stripped([CR, LF]) == [] by { assert [CR, LF][..1] == [CR]; }
  }

  /** Whatever is parsed, from any bytes, is clean. */
  lemma {:induction false} ParsedClean(m: HeaderMap, rest: seq<u8>)
    requires Clean(m)
    ensures BlockIn(m, rest).Ok? ==> Clean(BlockIn(m, rest).value.0)
    decreases |rest|
  {
    hide CleanName, CleanValue, LineLength, FieldOf;
    var n := LineLength(rest);
    var line := Stripped(rest[..n]);
    if line != [] && ColonIn(line).Some? {
      FieldClean(rest);
      var (name, value) := FieldOf(line, ColonIn(line).value);
      AddClean(m, name, value);
      ParsedClean(Add(m, name, value), rest[n..]);
    }
  }

  lemma AddClean(m: HeaderMap, name: seq<u8>, value: seq<u8>)
    requires Clean(m) && CleanName(name) && CleanValue(value)
    ensures Clean(Add(m, name, value))
  {
    hide CleanName, CleanValue;
    var next := Add(m, name, value);
    forall k | k in next && next[k] != []
      ensures CleanName(k) && forall i :: 0 <= i < |next[k]| ==> CleanValue(next[k][i])
    {
      if k == name {
        forall i | 0 <= i < |next[k]|
          ensures CleanValue(next[k][i])
        {
          if k in m && i < |m[k]| { assert next[k][i] == m[k][i]; }
        }
      }
    }
  }

  /** The field of the first line, if it has one, is clean. */
  lemma FieldClean(rest: seq<u8>)
    ensures var line := Stripped(rest[..LineLength(rest)]);
            ColonIn(line).Some? ==>
              CleanName(FieldOf(line, ColonIn(line).value).0) && CleanValue(FieldOf(line, ColonIn(line).value).1)
  {
    hide LineLength, CleanName, CleanValue, Lower, TrimStart, ColonIn;
    var line := Stripped(rest[..LineLength(rest)]);
    assert LF !in line;
    if ColonIn(line).Some? {
      var colon := ColonIn(line).value;
      assert forall i :: 0 <= i < colon ==> line[i] != LF && line[i] != COLON;
      LowerClean(line[..colon]);
      TrimStartClean(line[colon + 1..]);
    }
  }

  lemma LowerClean(s: seq<u8>)
    requires LF !in s && COLON !in s
    ensures CleanName(Lower(s))
  {
    var name := Lower(s);
    assert forall i :: 0 <= i < |name| ==> name[i] != LF && name[i] != COLON && !(65 <= name[i] <= 90);
  }

  lemma {:induction false} TrimStartClean(s: seq<u8>)
    requires LF !in s
    ensures CleanValue(TrimStart(s))
  {
    if s != [] && IsWhite(s[0]) {
      assert forall b :: b in s[1..] ==> b in s;
      TrimStartClean(s[1..]);
    }
  }

  // What is parsed from text is text.

  lemma {:induction false} LowerText(s: seq<u8>)
    requires IsUtf8(s)
    ensures IsUtf8(Lower(s))
    decreases |s|
  {
    if s != [] {
      var n := CharLen(s);
      assert CharLen(Lower(s)) == n;
      assert Lower(s)[n..] == Lower(s[n..]);
      LowerText(s[n..]);
    }
  }

  lemma {:induction false} TrimStartText(s: seq<u8>)
    requires IsUtf8(s)
    ensures IsUtf8(TrimStart(s))
  {
    if s != [] && IsWhite(s[0]) {
      assert CharLen(s) == 1;
      TrimStartText(s[1..]);
    }
  }

  lemma StrippedText(line: seq<u8>)
    requires IsUtf8(line)
    ensures IsUtf8(Stripped(line))
  {
    hide IsUtf8;
    var s := line;
    if s != [] && s[|s| - 1] == LF { s := DropLast(s); }
    if s != [] && s[|s| - 1] == CR { s := DropLast(s); }
  }

  lemma DropLast(s: seq<u8>) returns (front: seq<u8>)
    requires IsUtf8(s) && s != [] && s[|s| - 1] < 0x80
    ensures front == s[..|s| - 1] && IsUtf8(front)
  {
    front := s[..|s| - 1];
    assert s == front + [s[|s| - 1]] + [];
    Utf8Cut(front, s[|s| - 1], []);
  }

  lemma FieldText(line: seq<u8>, colon: nat)
    requires IsUtf8(line) && colon < |line| && line[colon] == COLON
    ensures IsUtf8(FieldOf(line, colon).0) && IsUtf8(FieldOf(line, colon).1)
  {
    hide IsUtf8, Lower, TrimStart;
    assert line == line[..colon] + [COLON] + line[colon + 1..];
    Utf8Cut(line[..colon], COLON, line[colon + 1..]);
    LowerText(line[..colon]);
    TrimStartText(line[colon + 1..]);
  }

  lemma AddText(m: HeaderMap, name: seq<u8>, value: seq<u8>)
    requires Text(m) && IsUtf8(name) && IsUtf8(value)
    ensures Text(Add(m, name, value))
  {
    hide IsUtf8;
    var next := Add(m, name, value);
    forall k | k in next && next[k] != []
      ensures IsUtf8(k) && forall i :: 0 <= i < |next[k]| ==> IsUtf8(next[k][i])
    {
      if k == name {
        forall i | 0 <= i < |next[k]|
          ensures IsUtf8(next[k][i])
        {
          if k in m && i < |m[k]| { assert next[k][i] == m[k][i]; }
        }
      }
    }
  }

  /** Parsing leaves no more than there was. */
  lemma {:induction false} BlockLeaves(m: HeaderMap, data: seq<u8>)
    ensures BlockIn(m, data).Ok? ==> |BlockIn(m, data).value.1| <= |data| - LineLength(data)
    decreases |data|
  {
    hide Stripped, FieldOf, LineLength;
    var n := LineLength(data);
    var line := Stripped(data[..n]);
    if line != [] && ColonIn(line).Some? && data != [] {
      var (name, value) := FieldOf(line, ColonIn(line).value);
      BlockLeaves(Add(m, name, value), data[n..]);
    } else if data == [] {
      NoLine();
    }
  }

  lemma NoLine()
    ensures LineLength([]) == 0 && Stripped([]) == []
  {
  }

  /** The first line of text within text, and what follows it there. */
  lemma FirstLineText(front: seq<u8>, rest: seq<u8>)
    requires IsUtf8(front) && LineLength(front + rest) <= |front|
    ensures var n := LineLength(front + rest);
            IsUtf8((front + rest)[..n]) && IsUtf8(front[n..]) && (front + rest)[n..] == front[n..] + rest
  {
    hide IsUtf8, LineLength;
    var data := front + rest;
    var n := LineLength(data);
    assert data[..n] == front[..n] && data[n..] == front[n..] + rest;
    if n == |front| {
      assert front[..n] == front;
      AsciiIsUtf8(front[n..]);
    } else {
      assert n < |data| && data[n - 1] == LF;
      assert front == front[..n - 1] + [LF] + front[n..];
      Utf8Cut(front[..n - 1], LF, front[n..]);
      AsciiIsUtf8([LF]);
      Utf8Concat(front[..n - 1], [LF]);
      assert front[..n] == front[..n - 1] + [LF];
    }
  }

  /** Names and values parsed from text, whatever comes behind it, are text. */
  lemma {:induction false} ParsedText(m: HeaderMap, front: seq<u8>, rest: seq<u8>)
    requires Text(m) && IsUtf8(front)
    ensures BlockIn(m, front + rest).Ok? && |BlockIn(m, front + rest).value.1| >= |rest| ==>
              Text(BlockIn(m, front + rest).value.0)
    decreases |front + rest|
  {
    hide Text, IsUtf8, Stripped, LineLength, FieldOf, ColonIn;
    var data := front + rest;
    var n := LineLength(data);
    var line := Stripped(data[..n]);
    if BlockIn(m, data).Ok? && |BlockIn(m, data).value.1| >= |rest| && line != [] {
      if data == [] { NoLine(); }
      BlockLeaves(m, data);
      FirstLineText(front, rest);
      StrippedText(data[..n]);
      var colon := ColonIn(line).value;
      FieldText(line, colon);
      var (name, value) := FieldOf(line, colon);
      AddText(m, name, value);
      ParsedText(Add(m, name, value), front[n..], rest);
    }
  }

  // What is printed is text.

  lemma LineText(shown: seq<u8> -> seq<u8>, name: seq<u8>, value: seq<u8>)
    requires Displays(shown)
    ensures IsUtf8(Line(shown, name, value))
  {
    hide IsUtf8;
    AsciiIsUtf8([COLON, SPACE]);
    AsciiIsUtf8([CR, LF]);
    Utf8Concat(shown(name), [COLON, SPACE]);
    Utf8Concat(shown(name) + [COLON, SPACE], shown(value));
    Utf8Concat(shown(name) + [COLON, SPACE] + shown(value), [CR, LF]);
  }

  lemma {:induction false} LinesText(shown: seq<u8> -> seq<u8>, name: seq<u8>, values: seq<seq<u8>>)
    requires Displays(shown)
    ensures IsUtf8(Lines(shown, name, values))
    decreases |values|
  {
    if values != [] {
      hide IsUtf8, Line, Displays;
      LineText(shown, name, values[0]);
      LinesText(shown, name, values[1..]);
      Utf8Concat(Line(shown, name, values[0]), Lines(shown, name, values[1..]));
    }
  }

  lemma {:induction false} BlockText(shown: seq<u8> -> seq<u8>, m: HeaderMap, names: seq<seq<u8>>)
    requires Displays(shown) && forall k :: k in names ==> k in m
    ensures IsUtf8(Block(shown, m, names))
    decreases |names|
  {
    if names != [] {
      hide IsUtf8, Lines, Displays;
      LinesText(shown, names[0], m[names[0]]);
      BlockText(shown, m, names[1..]);
      Utf8Concat(Lines(shown, names[0], m[names[0]]), Block(shown, m, names[1..]));
    }
  }

  /** Printing in any order and parsing gives back every name with its values in order, and leaves
      the source at the body, exactly when all that is printed is clean UTF-8. */
  lemma HeadersRoundTrip(shown: seq<u8> -> seq<u8>, m: HeaderMap, names: seq<seq<u8>>, rest: seq<u8>)
    requires Displays(shown) && Enumerates(names, m)
    ensures BlockIn(map[], Block(shown, m, names) + [CR, LF] + rest) == Ok((Present(m, m.Keys), rest)) <==>
            Clean(m) && Text(m)
    ensures (forall k :: k in m ==> m[k] != []) ==> Present(m, m.Keys) == m
  {
    hide BlockIn, Lines, CleanName, CleanValue, Faithful, IsUtf8;
    var front := Block(shown, m, names) + [CR, LF];
    if Clean(m) && Text(m) {
      BlockRoundTrip(shown, m, {}, names, rest);
      assert Present(m, {}) == map[];
      assert {} + (set k | k in names) == m.Keys;
    }
    if BlockIn(map[], front + rest) == Ok((Present(m, m.Keys), rest)) {
      ParsedClean(map[], front + rest);
      BlockText(shown, m, names);
      AsciiIsUtf8([CR, LF]);
      Utf8Concat(Block(shown, m, names), [CR, LF]);
      ParsedText(map[], front, rest);
      assert forall k :: k in m && m[k] != [] ==> k in Present(m, m.Keys) && Present(m, m.Keys)[k] == m[k];
    }
  }

  /** One field: it comes back exactly when its name and value are clean UTF-8. */
  lemma OneFieldRoundTrip(shown: seq<u8> -> seq<u8>, name: seq<u8>, value: seq<u8>, rest: seq<u8>)
    requires Displays(shown)
    ensures BlockIn(map[], Line(shown, name, value) + [CR, LF] + rest) == Ok((map[name := [value]], rest)) <==>
            GoodName(name) && GoodValue(value)
  {
    hide BlockIn, Line, CleanName, CleanValue, Displays, IsUtf8;
    var m: HeaderMap := map[name := [value]];
    assert m[name][0] == value;
    assert Clean(m) && Text(m) <==> GoodName(name) && GoodValue(value);
    assert Lines(shown, name, [value]) == Line(shown, name, value) by { assert [value][1..] == []; }
    assert [name][1..] == [];
    assert Block(shown, m, [name]) == Line(shown, name, value);
    assert Present(m, m.Keys) == m;
    HeadersRoundTrip(shown, m, [name], rest);
  }

  /** A value with a line feed does not come back. */
  lemma LineFeedBreaks(shown: seq<u8> -> seq<u8>, rest: seq<u8>)
    requires Displays(shown)
    ensures BlockIn(map[], Line(shown, [97], [LF]) + [CR, LF] + rest) != Ok((map[[97] := [[LF]]], rest))
  {
    hide BlockIn, Line, Displays, IsUtf8;
    OneFieldRoundTrip(shown, [97], [LF], rest);
  }

  /** Nor does one that is not UTF-8, clean as it is. */
  lemma DisplayLoses(shown: seq<u8> -> seq<u8>, rest: seq<u8>)
    requires Displays(shown)
    ensures CleanValue([0xFF])
    ensures BlockIn(map[], Line(shown, [97], [0xFF]) + [CR, LF] + rest) != Ok((map[[97] := [[0xFF]]], rest))
  {
    hide BlockIn, Line, Displays;
    OneFieldRoundTrip(shown, [97], [0xFF], rest);
  }

  // ---------- any line ----------

  /** A name that differs from a clean one at most in the case of its ASCII letters. */
  predicate SameLetters(raw: seq<u8>, name: seq<u8>) {
    && |raw| == |name|
    && forall i :: 0 <= i < |raw| ==> name[i] == raw[i] || (65 <= raw[i] <= 90 && name[i] == raw[i] + 32)
  }

  /** A line as a client may send it: a name in any case, a colon, white space or none, a value, and the
      end of a line with or without a carriage return. It adds the field. */
  lemma FieldLine(m: HeaderMap, raw: seq<u8>, name: seq<u8>, white: seq<u8>, value: seq<u8>, end: seq<u8>,
                  rest: seq<u8>)
    requires CleanName(name) && SameLetters(raw, name)
    requires forall b :: b in white ==> b in {9, 12, 13, 32}
    requires LF !in value && (value != [] ==> value[0] !in {9, 12, 13, 32})
    requires end == [13, 10] || (end == [10] && (value == [] || value[|value| - 1] != 13))
    ensures BlockIn(m, raw + [58] + white + value + end + rest) == BlockIn(Add(m, name, value), rest)
  {
    hide BlockIn, Add, TrimStart, CleanName, SameLetters, Lower;
    RawName(raw, name);
    var after, cr := SplitEnd(white, value, end);
    AddsField(m, raw, name, after, value, cr, rest);
    assert raw + [58] + white + value + end + rest == raw + [58] + (white + value + end) + rest;
    assert raw + [58] + after + cr + [10] + rest == raw + [58] + (after + cr + [10]) + rest;
  }

  /** What follows the colon: what trims to the value, and the end of the line that is stripped. */
  lemma SplitEnd(white: seq<u8>, value: seq<u8>, end: seq<u8>) returns (after: seq<u8>, cr: seq<u8>)
    requires forall b :: b in white ==> b in {9, 12, 13, 32}
    requires LF !in value && (value != [] ==> value[0] !in {9, 12, 13, 32})
    requires end == [13, 10] || (end == [10] && (value == [] || value[|value| - 1] != 13))
    ensures white + value + end == after + cr + [10]
    ensures LF !in after && TrimStart(after) == value
    ensures cr == [13] || (cr == [] && (after == [] || after[|after| - 1] != 13))
  {
    hide TrimStart;
    after := white + value;
    if value == [] { TrimWhite(white); } else { TrimFront(white, value); }
    if end == [13, 10] {
      cr := [13];
      assert after + cr + [10] == after + end;
    } else if after != [] && after[|after| - 1] == 13 {
      after, cr := white[..|white| - 1], [13];
      assert white == after + [13];
      assert forall b :: b in after ==> b in white;
      TrimWhite(after);
    } else {
      cr := [];
      assert after + cr + [10] == after + end;
    }
  }

  /** A line that, without its end, is a name, a colon and what trims to a value. */
  lemma AddsField(m: HeaderMap, raw: seq<u8>, name: seq<u8>, after: seq<u8>, value: seq<u8>, cr: seq<u8>, rest: seq<u8>)
    requires COLON !in raw && LF !in raw && Lower(raw) == name
    requires LF !in after && TrimStart(after) == value
    requires cr == [13] || (cr == [] && (after == [] || after[|after| - 1] != 13))
    ensures BlockIn(m, raw + [58] + after + cr + [10] + rest) == BlockIn(Add(m, name, value), rest)
  {
    hide Lower, TrimStart, LineLength, Add;
    var body := raw + [58] + after;
    var wire := body + cr + [LF] + rest;
    LineEnds(body + cr, rest);
    var n := LineLength(wire);
    assert wire[..n] == body + cr + [LF] && wire[n..] == rest;
    StripEnd(body, cr);
    assert body[|raw|] == COLON && forall i :: 0 <= i < |raw| ==> body[i] == raw[i];
    FirstColon(body, |raw|);
    assert body[..|raw|] == raw && body[|raw| + 1..] == after;
  }

  lemma FirstColon(s: seq<u8>, i: nat)
    requires i < |s| && s[i] == COLON && forall k :: 0 <= k < i ==> s[k] != COLON
    ensures ColonIn(s) == Some(i)
  {
  }

  lemma StripEnd(body: seq<u8>, cr: seq<u8>)
    requires cr == [13] || (cr == [] && (body == [] || body[|body| - 1] != 13))
    ensures Stripped(body + cr + [LF]) == body
  {
    var line := body + cr + [LF];
    assert line[..|line| - 1] == body + cr;
    if cr == [13] {
      assert (body + cr)[..|body|] == body;
    } else {
      assert body + cr == body;
    }
  }

  lemma RawName(raw: seq<u8>, name: seq<u8>)
    requires CleanName(name) && SameLetters(raw, name)
    ensures LF !in raw && COLON !in raw && Lower(raw) == name
  {
    forall i | 0 <= i < |raw|
      ensures raw[i] != LF && raw[i] != COLON && Lower(raw)[i] == name[i]
    {
      assert name[i] != LF && name[i] != COLON && !(65 <= name[i] <= 90);
    }
  }

  lemma {:induction false} TrimWhite(white: seq<u8>)
    requires forall b :: b in white ==> b in {9, 12, 13, 32}
    ensures TrimStart(white) == [] && TrimStart(white + []) == []
    decreases |white|
  {
    assert white + [] == white;
    if white != [] {
      assert white[0] in white && forall b :: b in white[1..] ==> b in white;
      TrimWhite(white[1..]);
    }
  }

  lemma {:induction false} TrimFront(white: seq<u8>, value: seq<u8>)
    requires forall b :: b in white ==> b in {9, 12, 13, 32}
    requires value != [] && value[0] !in {9, 12, 13, 32} && LF !in value
    ensures TrimStart(white + value) == value
    decreases |white|
  {
    if white == [] {
      assert white + value == value && value[0] in value;
    } else {
      assert white[0] in white && forall b :: b in white[1..] ==> b in white;
      assert (white + value)[0] == white[0] && (white + value)[1..] == white[1..] + value;
      TrimFront(white[1..], value);
    }
  }

  /** A line that is not empty and has no colon makes the block fail. */
  lemma NoColonFails(m: HeaderMap, line: seq<u8>, rest: seq<u8>)
    requires LF !in line && COLON !in line && line != [] && line != [13]
    ensures BlockIn(m, line + [10] + rest) == Err(())
  {
    hide LineLength, Add;
    LineEnds(line, rest);
    var wire := line + [LF] + rest;
    assert wire[..LineLength(wire)] == line + [LF];
    if line[|line| - 1] == 13 {
      var body := line[..|line| - 1];
      assert line == body + [13];
      StripEnd(body, [13]);
    } else {
      assert line + [] == line;
      StripEnd(line, []);
    }
  }

  /** The block ends at an empty line, with or without a carriage return, and where the source ends. */
  lemma BlockEnds(m: HeaderMap, rest: seq<u8>)
    ensures BlockIn(m, [13, 10] + rest) == Ok((m, rest))
    ensures BlockIn(m, [10] + rest) == Ok((m, rest))
    ensures BlockIn(m, []) == Ok((m, []))
  {
    EmptyLine(m, rest);
    var wire := [LF] + rest;
    assert wire == [] + [LF] + rest;
    LineEnds([], rest);
    assert wire[..1] == [] + [] + [LF] && wire[1..] == rest;
    StripEnd([], []);
  }

  /** A printed line, byte for byte, of UTF-8 text. */
  lemma PrintedLine(shown: seq<u8> -> seq<u8>, name: seq<u8>, value: seq<u8>)
    requires Faithful(shown) && IsUtf8(name) && IsUtf8(value)
    ensures Line(shown, name, value) == name + Ascii(": ") + value + [13, 10]
  {
    hide IsUtf8;
    assert Ascii(": ") == [COLON, SPACE];
  }
}
