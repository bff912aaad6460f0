/** Well-formed UTF-8, and how it behaves when text is cut and joined. */
module Utf8 {
  import opened Words

  predicate Continues(b: u8) {
    0x80 <= b < 0xC0
  }

  /** The bytes of the character at the front of s, 0 if there is none. */
  function CharLen(s: seq<u8>): (n: nat)
    ensures n <= |s|
    ensures forall i :: 1 <= i < n ==> Continues(s[i])
  {
    if s == [] then 0
    else if s[0] < 0x80 then 1
    else if 0xC2 <= s[0] <= 0xDF then
      if |s| >= 2 && Continues(s[1]) then 2 else 0
    else if 0xE0 <= s[0] <= 0xEF then
      if && |s| >= 3 && Continues(s[1]) && Continues(s[2])
         && (s[0] == 0xE0 ==> s[1] >= 0xA0) && (s[0] == 0xED ==> s[1] < 0xA0) then 3 else 0
    else if 0xF0 <= s[0] <= 0xF4 then
      if && |s| >= 4 && Continues(s[1]) && Continues(s[2]) && Continues(s[3])
         && (s[0] == 0xF0 ==> s[1] >= 0x90) && (s[0] == 0xF4 ==> s[1] < 0x90) then 4 else 0
    else 0
  }

  predicate IsUtf8(s: seq<u8>)
    decreases |s|
  {
    s == [] || (CharLen(s) > 0 && IsUtf8(s[CharLen(s)..]))
  }

  lemma AsciiFirst(s: seq<u8>)
    ensures s != [] && s[0] < 0x80 ==> CharLen(s) == 1
  {
  }

  lemma {:induction false} AsciiIsUtf8(s: seq<u8>)
    requires forall i :: 0 <= i < |s| ==> s[i] < 0x80
    ensures IsUtf8(s)
    decreases |s|
  {
    if s != [] { AsciiIsUtf8(s[1..]); }
  }

  /** A character depends on its own bytes alone. */
  lemma CharLenPrefix(a: seq<u8>, b: seq<u8>)
    ensures CharLen(a) > 0 ==> CharLen(a + b) == CharLen(a)
    ensures 0 < CharLen(a + b) <= |a| ==> CharLen(a) == CharLen(a + b)
  {
    var s := a + b;
    assert forall i :: 0 <= i < |a| ==> s[i] == a[i];
  }

  /** Text joined to text is text. */
  lemma {:induction false} Utf8Concat(a: seq<u8>, b: seq<u8>)
    requires IsUtf8(a) && IsUtf8(b)
    ensures IsUtf8(a + b)
    decreases |a|
  {
    hide CharLen;
    if a == [] {
      assert a + b == b;
    } else {
      var n := CharLen(a);
      CharLenPrefix(a, b);
      assert (a + b)[n..] == a[n..] + b;
      Utf8Concat(a[n..], b);
    }
  }

  /** Text cut at an ASCII byte is text on both sides. */
  lemma {:induction false} Utf8Cut(a: seq<u8>, c: u8, b: seq<u8>)
    requires IsUtf8(a + [c] + b) && c < 0x80
    ensures IsUtf8(a) && IsUtf8(b)
    decreases |a|
  {
    hide CharLen;
    var s := a + [c] + b;
    var n := CharLen(s);
    if a == [] {
      AsciiFirst(s);
      assert s[1..] == b;
    } else {
      assert s[|a|] == c && !Continues(c);
      assert s == a + ([c] + b);
      CharLenPrefix(a, [c] + b);
      assert s[n..] == a[n..] + [c] + b;
      Utf8Cut(a[n..], c, b);
    }
  }

  // ---------- what the bytes stand for ----------

  /** The scalar values of Unicode. */
  type CodePoint = c: int | 0 <= c < 0xD800 || 0xE000 <= c < 0x11_0000

  /** Table 3-6 of the Unicode Standard. */
  function Encoded(c: CodePoint): (s: seq<u8>)
    ensures 1 <= |s| <= 4
  {
    if c < 0x80 then [c]
    else if c < 0x800 then [0xC0 + c / 0x40, 0x80 + c % 0x40]
    else if c < 0x1_0000 then [0xE0 + c / 0x1000, 0x80 + c / 0x40 % 0x40, 0x80 + c % 0x40]
    else [0xF0 + c / 0x4_0000, 0x80 + c / 0x1000 % 0x40, 0x80 + c / 0x40 % 0x40, 0x80 + c % 0x40]
  }

  function EncodedText(cs: seq<CodePoint>): seq<u8> {
    if cs == [] then [] else Encoded(cs[0]) + EncodedText(cs[1..])
  }

  lemma EncodedChar(c: CodePoint, rest: seq<u8>)
    ensures CharLen(Encoded(c) + rest) == |Encoded(c)|
  {
    var s := Encoded(c);
    assert forall i :: 0 <= i < |s| ==> (s + rest)[i] == s[i];
  }

  lemma CharEncodes(s: seq<u8>) returns (c: CodePoint)
    requires CharLen(s) > 0
    ensures Encoded(c) == s[..CharLen(s)]
  {
    var n := CharLen(s);
    if n == 1 {
      c := s[0];
    } else if n == 2 {
      c := TwoByteChar(s);
    } else if n == 3 {
      c := ThreeByteChar(s);
    } else {
      c := FourByteChar(s);
    }
  }

  lemma TwoByteChar(s: seq<u8>) returns (c: CodePoint)
    requires CharLen(s) == 2
    ensures Encoded(c) == s[..2]
  {
    var b0: int, b1: int := s[0], s[1];
    c := 0x40 * (b0 - 0xC0) + (b1 - 0x80);
    SixBits(b0 - 0xC0, b1 - 0x80);
  }

  lemma ThreeByteChar(s: seq<u8>) returns (c: CodePoint)
    requires CharLen(s) == 3
    ensures Encoded(c) == s[..3]
  {
    var b0: int, b1: int, b2: int := s[0], s[1], s[2];
    var high := 0x40 * (b0 - 0xE0) + (b1 - 0x80);
    c := 0x40 * high + (b2 - 0x80);
    SixBits(b0 - 0xE0, b1 - 0x80);
    SixBits(high, b2 - 0x80);
  }

  lemma FourByteChar(s: seq<u8>) returns (c: CodePoint)
    requires CharLen(s) == 4
    ensures Encoded(c) == s[..4]
  {
    var b0: int, b1: int, b2: int, b3: int := s[0], s[1], s[2], s[3];
    var high := 0x40 * (b0 - 0xF0) + (b1 - 0x80);
    var higher := 0x40 * high + (b2 - 0x80);
    c := 0x40 * higher + (b3 - 0x80);
    SixBits(b0 - 0xF0, b1 - 0x80);
    SixBits(high, b2 - 0x80);
    SixBits(higher, b3 - 0x80);
  }

  lemma SixBits(high: nat, low: nat)
    requires low < 0x40
    ensures (0x40 * high + low) / 0x40 == high && (0x40 * high + low) % 0x40 == low
    ensures (0x40 * high + low) / 0x1000 == high / 0x40 && (0x40 * high + low) / 0x4_0000 == high / 0x1000
  {
  }

  lemma {:induction false} EncodedIsUtf8(cs: seq<CodePoint>)
    ensures IsUtf8(EncodedText(cs))
    decreases |cs|
  {
    if cs != [] {
      hide CharLen, Encoded;
      EncodedChar(cs[0], EncodedText(cs[1..]));
      assert EncodedText(cs)[|Encoded(cs[0])|..] == EncodedText(cs[1..]);
      EncodedIsUtf8(cs[1..]);
    }
  }

  lemma EncodedCons(c: CodePoint, more: seq<CodePoint>)
    ensures EncodedText([c] + more) == Encoded(c) + EncodedText(more)
  {
    hide Encoded;
    assert ([c] + more)[1..] == more;
  }

  lemma {:induction false} TextOf(s: seq<u8>) returns (cs: seq<CodePoint>)
    requires IsUtf8(s)
    ensures EncodedText(cs) == s
    decreases |s|
  {
    if s == [] {
      return [];
    }
    hide EncodedText;
    var c, rest := FirstChar(s);
    var more := TextOf(rest);
    EncodedCons(c, more);
    cs := [c] + more;
  }

  lemma FirstChar(s: seq<u8>) returns (c: CodePoint, rest: seq<u8>)
    requires IsUtf8(s) && s != []
    ensures s == Encoded(c) + rest && IsUtf8(rest) && |rest| < |s|
  {
    hide Encoded;
    c := CharEncodes(s);
    rest := s[CharLen(s)..];
  }

  /** A byte string is UTF-8 exactly when it encodes some sequence of scalar values. */
  lemma Utf8Means(s: seq<u8>)
    ensures IsUtf8(s) <==> exists cs :: s == EncodedText(cs)
  {
    if IsUtf8(s) {
      var cs := TextOf(s);
    } else if exists cs :: s == EncodedText(cs) {
      var cs :| s == EncodedText(cs);
      EncodedIsUtf8(cs);
    }
  }

  // ---------- white space at the end ----------

  predicate EndsWith(s: seq<u8>, suffix: seq<u8>) {
    |suffix| <= |s| && s[|s| - |suffix|..] == suffix
  }

  /** The length of the white-space character at the end of UTF-8 text, 0 if there is none: the
      characters of Unicode's White_Space property in their one, two and three bytes. */
  function SpaceAtEnd(s: seq<u8>): (n: nat)
    ensures n <= |s|
  {
    if s == [] then 0
    else
      var last := s[|s| - 1];
      if 9 <= last <= 13 || last == 32 then 1
      else if EndsWith(s, [0xC2, 0x85]) || EndsWith(s, [0xC2, 0xA0]) then 2
      else if EndsWith(s, [0xE1, 0x9A, 0x80]) || EndsWith(s, [0xE3, 0x80, 0x80]) then 3
      else if EndsWith(s, [0xE2, 0x81, 0x9F]) then 3
      else if EndsWith(s, [0xE2, 0x80, last]) && (0x80 <= last <= 0x8A || last in {0xA8, 0xA9, 0xAF}) then 3
      else 0
  }

  /** `trim_end` */
  function TrimEnd(s: seq<u8>): seq<u8> {
    if SpaceAtEnd(s) > 0 then TrimEnd(s[..|s| - SpaceAtEnd(s)]) else s
  }

  /** The property White_Space. */
  predicate White(c: CodePoint) {
    || 0x9 <= c <= 0xD || c == 0x20 || c == 0x85 || c == 0xA0 || c == 0x1680 || 0x2000 <= c <= 0x200A
    || c == 0x2028 || c == 0x2029 || c == 0x202F || c == 0x205F || c == 0x3000
  }

  function TrimmedText(cs: seq<CodePoint>): seq<CodePoint> {
    if cs != [] && White(cs[|cs| - 1]) then TrimmedText(cs[..|cs| - 1]) else cs
  }

  lemma SpaceMeans(s: seq<u8>, c: CodePoint)
    ensures SpaceAtEnd(s + Encoded(c)) == if White(c) then |Encoded(c)| else 0
  {
    hide SpaceAtEnd;
    var e, t := Encoded(c), s + Encoded(c);
    SpaceBytes(t);
    if c < 0x80 {
      assert t[|t| - 1] == c;
    } else if c < 0x800 {
      TwoBytes(c);
      assert t[|t| - 1] == e[1] && t[|t| - 2] == e[0];
    } else if c < 0x1_0000 {
      ThreeBytes(c);
      assert t[|t| - 1] == e[2] && t[|t| - 2] == e[1] && t[|t| - 3] == e[0];
    } else {
      assert t[|t| - 1] == e[3] && t[|t| - 2] == e[2] && t[|t| - 3] == e[1];
    }
  }

  lemma TwoBytes(c: CodePoint)
    requires 0x80 <= c < 0x800
    ensures var (b0, b1) := (0xC0 + c / 0x40, 0x80 + c % 0x40);
            White(c) <==> b0 == 0xC2 && (b1 == 0x85 || b1 == 0xA0)
  {
  }

  lemma ThreeBytes(c: CodePoint)
    requires 0x800 <= c < 0x1_0000
    ensures var (b0, b1, b2) := (0xE0 + c / 0x1000, 0x80 + c / 0x40 % 0x40, 0x80 + c % 0x40);
            White(c) <==>
            || (b0 == 0xE1 && b1 == 0x9A && b2 == 0x80) || (b0 == 0xE3 && b1 == 0x80 && b2 == 0x80)
            || (b0 == 0xE2 && b1 == 0x81 && b2 == 0x9F)
            || (b0 == 0xE2 && b1 == 0x80 && (b2 <= 0x8A || b2 in {0xA8, 0xA9, 0xAF}))
  {
    assert c == 0x1000 * (c / 0x1000) + 0x40 * (c / 0x40 % 0x40) + c % 0x40;
  }

  /** The white space at the end by its bytes. */
  lemma SpaceBytes(s: seq<u8>)
    requires s != []
    ensures var n := |s|;
            var (x, y, z) := (s[n - 1], if n > 1 then s[n - 2] else 0, if n > 2 then s[n - 3] else 0);
            SpaceAtEnd(s) ==
            if 9 <= x <= 13 || x == 32 then 1
            else if y == 0xC2 && (x == 0x85 || x == 0xA0) then 2
            else if (z == 0xE1 && y == 0x9A && x == 0x80) || (z == 0xE3 && y == 0x80 && x == 0x80)
                    || (z == 0xE2 && y == 0x81 && x == 0x9F) then 3
            else if z == 0xE2 && y == 0x80 && (0x80 <= x <= 0x8A || x in {0xA8, 0xA9, 0xAF}) then 3
            else 0
  {
    hide EndsWith;
    EndBytes(s, [0xC2, 0x85]);
    EndBytes(s, [0xC2, 0xA0]);
    EndBytes(s, [0xE1, 0x9A, 0x80]);
    EndBytes(s, [0xE3, 0x80, 0x80]);
    EndBytes(s, [0xE2, 0x81, 0x9F]);
    EndBytes(s, [0xE2, 0x80, s[|s| - 1]]);
  }

  lemma EndBytes(s: seq<u8>, suffix: seq<u8>)
    requires |suffix| == 2 || |suffix| == 3
    ensures |suffix| == 2 ==> (EndsWith(s, suffix) <==> |s| >= 2 && s[|s| - 2] == suffix[0] && s[|s| - 1] == suffix[1])
    ensures |suffix| == 3 ==>
              (EndsWith(s, suffix) <==>
               |s| >= 3 && s[|s| - 3] == suffix[0] && s[|s| - 2] == suffix[1] && s[|s| - 1] == suffix[2])
  {
  }

  lemma {:induction false} EncodedSnoc(cs: seq<CodePoint>, c: CodePoint)
    ensures EncodedText(cs + [c]) == EncodedText(cs) + Encoded(c)
    decreases |cs|
  {
    hide Encoded;
    if cs == [] {
      assert ([] + [c])[1..] == [];
    } else {
      assert (cs + [c])[1..] == cs[1..] + [c];
      EncodedSnoc(cs[1..], c);
    }
  }

  /** On text, trimming takes away the white-space characters at the end and nothing else. */
  lemma {:induction false} TrimMeans(cs: seq<CodePoint>)
    ensures TrimEnd(EncodedText(cs)) == EncodedText(TrimmedText(cs))
    decreases |cs|
  {
    hide Encoded, White, SpaceAtEnd;
    if cs == [] {
      NoSpace();
    } else {
      var front, c := cs[..|cs| - 1], cs[|cs| - 1];
      assert cs == front + [c];
      EncodedSnoc(front, c);
      SpaceMeans(EncodedText(front), c);
      var s := EncodedText(cs);
      assert s[..|s| - |Encoded(c)|] == EncodedText(front);
      TrimMeans(front);
    }
  }

  lemma NoSpace()
    ensures SpaceAtEnd([]) == 0
  {
  }
}
