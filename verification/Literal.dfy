/** Prefix-coded integers and string literals (literal.rs; sections 5.1 and 5.2 of RFC 7541). */
module Literal {
  import opened Wrappers
  import opened Arithmetic
  import opened Words
  import opened Buffers
  import opened Streams
  import opened HuffmanTheory
  import opened Huffman

  // ---------- integers: what a byte string says ----------

  /** The number of bytes up to and including the first without a continuation bit. */
  function Terminator(tail: seq<u8>): (n: Option<nat>)
    ensures n.Some? ==> 1 <= n.value <= |tail| && tail[n.value - 1] < 128
    ensures n.Some? ==> forall i :: 0 <= i < n.value - 1 ==> tail[i] >= 128
    ensures n.None? ==> forall i :: 0 <= i < |tail| ==> tail[i] >= 128
  {
    if tail == [] then None
    else if tail[0] < 128 then Some(1)
    else match Terminator(tail[1..]) case None => None case Some(n) => Some(n + 1)
  }

  /** The low seven bits of each byte, least significant group first. */
  function GroupSum(groups: seq<u8>): nat {
    if groups == [] then 0 else groups[0] % 128 + 128 * GroupSum(groups[1..])
  }

  const MAX_GROUPS: nat := 10

  /** The integer at the front of `data` and its length, for a prefix of `bits` bits. The value is
      that of section 5.1 of RFC 7541 reduced to 64 bits; ten groups are the most that are read. */
  function IntegerAt(bits: nat, data: seq<u8>): Result<(u64, nat), DecodeError> {
    if data == [] then Err(TooSmall)
    else
      var mask := Pow2(bits) - 1;
      var first := data[0] % Pow2(bits);
      ModAtMost(data[0], Pow2(bits));
      if first < mask then Ok((first, 1))
      else
        var tail := data[1..if |data| > 1 + MAX_GROUPS then 1 + MAX_GROUPS else |data|];
        match Terminator(tail)
        case Some(n) => Ok(((mask + GroupSum(tail[..n])) % TWO_64, 1 + n))
        case None => if |tail| == MAX_GROUPS then Err(Overflow) else Err(TooSmall)
  }

  lemma {:induction false} GroupSumSnoc(groups: seq<u8>, b: u8)
    ensures GroupSum(groups + [b]) == GroupSum(groups) + (b % 128) * Pow2(7 * |groups|)
  {
    if groups == [] {
      assert (groups + [b])[1..] == [];
    } else {
      GroupSumSnoc(groups[1..], b);
      assert (groups + [b])[1..] == groups[1..] + [b];
      var p := Pow2(7 * |groups[1..]|);
      assert Pow2(7 * |groups|) == 128 * p by {
        Pow2Add(7, 7 * |groups[1..]|);
        assert Pow2(7) == 128;
      }
      assert (b % 128) * (128 * p) == 128 * ((b % 128) * p);
    }
  }

  /** A prefix of all ones sends the parser to the groups, which end at the terminator. */
  lemma IntegerTerminated(bits: nat, data: seq<u8>, offset: nat)
    requires 2 <= offset <= |data| && offset <= 1 + MAX_GROUPS
    requires data[0] % Pow2(bits) == Pow2(bits) - 1
    requires forall i :: 1 <= i < offset - 1 ==> data[i] >= 128
    requires data[offset - 1] < 128
    ensures IntegerAt(bits, data) == Ok(((Pow2(bits) - 1 + GroupSum(data[1..offset])) % TWO_64, offset))
  {
    hide Pow2, GroupSum;
    var tail := data[1..if |data| > 1 + MAX_GROUPS then 1 + MAX_GROUPS else |data|];
    assert forall i :: 0 <= i < |tail| ==> tail[i] == data[i + 1];
    assert tail[offset - 2] < 128;
    assert Terminator(tail) == Some(offset - 1);
    assert tail[..offset - 1] == data[1..offset];
  }

  /** Without a terminator among the bytes at hand, ten groups are too many and fewer too few. */
  lemma IntegerUnterminated(bits: nat, data: seq<u8>, offset: nat)
    requires 1 <= offset <= |data| && offset == (if |data| > 1 + MAX_GROUPS then 1 + MAX_GROUPS else |data|)
    requires data[0] % Pow2(bits) == Pow2(bits) - 1
    requires forall i :: 1 <= i < offset ==> data[i] >= 128
    ensures IntegerAt(bits, data) == Err(if offset == 1 + MAX_GROUPS then Overflow else TooSmall)
  {
    hide Pow2, GroupSum;
    var tail := data[1..offset];
    assert forall i :: 0 <= i < |tail| ==> tail[i] == data[i + 1];
    assert Terminator(tail).None?;
  }

  /** The parser is exact, canonical encoding or not, whenever the value fits into 64 bits. */
  lemma IntegerExact(bits: nat, data: seq<u8>, n: nat)
    requires bits <= 7 && data != [] && data[0] % Pow2(bits) == Pow2(bits) - 1
    requires Terminator(data[1..]) == Some(n) && n <= MAX_GROUPS
    ensures var sum := Pow2(bits) - 1 + GroupSum(data[1..1 + n]);
            IntegerAt(bits, data) == Ok((sum % TWO_64, 1 + n)) &&
            (IntegerAt(bits, data) == Ok((sum, 1 + n)) <==> sum < TWO_64)
  {
    hide Pow2, GroupSum, IntegerAt, Terminator;
    var tail := data[1..];
    assert forall i :: 0 <= i < |tail| ==> tail[i] == data[i + 1];
    assert tail[n - 1] < 128;
    forall i | 1 <= i < n
      ensures data[i] >= 128
    {
      assert tail[i - 1] >= 128;
    }
    IntegerTerminated(bits, data, 1 + n);
  }

  /** Ten groups can say more than 64 bits: this integer is 2^70 + 126 and parses as 126. */
  lemma IntegerWraps()
    ensures var data := [0x7F] + FullGroups(9) + [0x7F];
            && 127 + GroupSum(data[1..]) == Pow2(70) + 126
            && IntegerAt(7, data) == Ok((126, 11))
  {
    hide Pow2, GroupSum, IntegerAt;
    var data := [0x7F] + FullGroups(9) + [0x7F];
    Pow2Of70();
    PowersOfTwo();
    assert data[1..] == FullGroups(9) + [0x7F];
    FullGroupSum(9);
    GroupSumSnoc(FullGroups(9), 0x7F);
    Pow2Add(63, 7);
    assert data[1..11] == data[1..];
    IntegerTerminated(7, data, 11);
  }

  /** k groups of seven one-bits with their continuation bits. */
  function FullGroups(k: nat): (s: seq<u8>)
    ensures |s| == k
  {
    seq(k, _ => 0xFF)
  }

  lemma {:induction false} FullGroupSum(k: nat)
    ensures GroupSum(FullGroups(k)) == Pow2(7 * k) - 1
  {
    if k > 0 {
      hide Pow2, GroupSum;
      FullGroupSum(k - 1);
      assert FullGroups(k) == FullGroups(k - 1) + [0xFF];
      GroupSumSnoc(FullGroups(k - 1), 0xFF);
      Pow2Add(7 * (k - 1), 7);
      PowersOfTwo();
    } else {
      assert FullGroups(0) == [];
    }
  }

  method ParseInteger(bits: u8, data: seq<u8>) returns (r: Result<(u64, nat), DecodeError>)
    requires bits <= 7
    ensures r == IntegerAt(bits, data)
  {
    hide Pow2, GroupSum, IntegerAt;
    IntegerShort(bits, data);
    if |data| == 0 {
      return Err(TooSmall);
    }
    Pow2Small(bits);
    var mask := Pow2(bits) - 1;
    var first := data[0] % Pow2(bits);
    var offset := 1;
    var output: u64 := first;
    if first < mask {
      return Ok((output, 1));
    }
    var m := 0;
    GroupSumEmpty(mask);
    assert data[1..1] == [];
    while m < 64
      invariant 1 <= offset <= |data| && offset <= 1 + MAX_GROUPS && m == 7 * (offset - 1)
      invariant forall i :: 1 <= i < offset ==> data[i] >= 128
      invariant output == (mask + GroupSum(data[1..offset])) % TWO_64
    {
      if offset >= |data| {
        IntegerUnterminated(bits, data, offset);
        return Err(TooSmall);
      }
      var byte := data[offset];
      NextGroup(mask, data, offset);
      output := (output + (byte % 128) * Pow2(m) % TWO_64) % TWO_64;
      m := m + 7;
      offset := offset + 1;
      if byte < 128 {
        IntegerTerminated(bits, data, offset);
        return Ok((output, offset));
      }
    }
    IntegerUnterminated(bits, data, offset);
    return Err(Overflow);
  }

  lemma IntegerShort(bits: nat, data: seq<u8>)
    requires bits <= 7
    ensures data == [] ==> IntegerAt(bits, data) == Err(TooSmall)
    ensures data != [] && data[0] % Pow2(bits) < Pow2(bits) - 1 ==>
              IntegerAt(bits, data) == Ok((data[0] % Pow2(bits), 1))
  {
  }

  lemma GroupSumEmpty(mask: nat)
    requires mask < 0x100
    ensures (mask + GroupSum([])) % TWO_64 == mask
  {
  }

  /** A shifted group added in 64 bits keeps the sum right modulo 2^64. */
  lemma NextGroup(mask: nat, data: seq<u8>, offset: nat)
    requires 1 <= offset < |data|
    ensures ((mask + GroupSum(data[1..offset])) % TWO_64
             + (data[offset] % 128) * Pow2(7 * (offset - 1)) % TWO_64) % TWO_64
         == (mask + GroupSum(data[1..offset + 1])) % TWO_64
  {
    var x := (data[offset] % 128) * Pow2(7 * (offset - 1));
    ModAdd(mask + GroupSum(data[1..offset]), x, TWO_64);
    GroupSumSnoc(data[1..offset], data[offset]);
    assert data[1..offset + 1] == data[1..offset] + [data[offset]];
  }

  // ---------- integers: the printer ----------

  function Groups(n: nat): (s: seq<u8>)
    ensures s != []
  {
    if n >= 128 then [n % 128 + 128] + Groups(n / 128) else [n]
  }

  lemma GroupsStep(n: nat)
    ensures n >= 128 ==> Groups(n) == [n % 128 + 128] + Groups(n / 128)
    ensures n < 128 ==> Groups(n) == [n]
  {
  }

  /** `prefix << bits` in eight bits. */
  function High(prefix: u8, bits: nat): u8 {
    prefix * Pow2(bits) % 0x100
  }

  /** What `write_integer` prints: the prefix bits above a `bits`-wide integer. */
  function PrintInteger(prefix: u8, bits: nat, n: nat): (s: seq<u8>)
    requires bits <= 7
    ensures s != []
  {
    Pow2Small(bits);
    var mask := Pow2(bits) - 1;
    var high := High(prefix, bits);
    HighBits(prefix, bits);
    if n < mask then [high + n] else [high + mask] + Groups(n - mask)
  }

  /** The prefix shifted left leaves the low bits clear and the rest of the byte to the prefix. */
  lemma HighBits(prefix: u8, bits: nat)
    requires bits <= 7
    ensures var high := High(prefix, bits);
            && high % Pow2(bits) == 0
            && high + Pow2(bits) <= 0x100
            && high / Pow2(bits) == prefix % Pow2(8 - bits)
  {
    hide Pow2;
    var p, k := Pow2(bits), Pow2(8 - bits);
    Pow2Add(bits, 8 - bits);
    PowersOfTwo();
    ModScale(p, prefix, k);
    DivMod(p, prefix % k, 0);
    MulLess(p, prefix % k, k);
  }

  lemma {:induction false} GroupsParse(n: nat, rest: seq<u8>)
    ensures Terminator(Groups(n) + rest) == Some(|Groups(n)|)
    ensures GroupSum(Groups(n)) == n
    decreases n
  {
    if n >= 128 {
      GroupsParse(n / 128, rest);
      assert (Groups(n) + rest)[1..] == Groups(n / 128) + rest;
      assert Groups(n)[1..] == Groups(n / 128);
    } else {
      assert Groups(n)[1..] == [];
    }
  }

  lemma {:induction false} GroupsLength(n: nat, k: nat)
    requires k > 0 && n < Pow2(7 * k)
    ensures |Groups(n)| <= k
    decreases k
  {
    if n >= 128 {
      assert k > 1 by { assert Pow2(7) == 128; }
      Pow2Add(7, 7 * (k - 1));
      assert Pow2(7) == 128;
      GroupsLength(n / 128, k - 1);
    }
  }

  lemma Pow2Of70()
    ensures Pow2(70) == 64 * TWO_64 && Pow2(64) == TWO_64
  {
    hide Pow2;
    PowersOfTwo();
    Pow2Add(8, 8);
    Pow2Add(16, 16);
    Pow2Add(32, 32);
    Pow2Add(6, 64);
  }

  /** Printing and parsing again gives the integer and its printed length, at most 11 bytes. */
  lemma IntegerRoundTrip(prefix: u8, bits: nat, n: u64, rest: seq<u8>)
    requires 1 <= bits <= 7
    ensures IntegerAt(bits, PrintInteger(prefix, bits, n) + rest) == Ok((n, |PrintInteger(prefix, bits, n)|))
    ensures |PrintInteger(prefix, bits, n)| <= 11
  {
    hide Pow2;
    HighBits(prefix, bits);
    Pow2Small(bits);
    var mask := Pow2(bits) - 1;
    var high := High(prefix, bits);
    var printed := PrintInteger(prefix, bits, n);
    var data := printed + rest;
    LowBits(high, if n < mask then n else mask, Pow2(bits));
    if n >= mask {
      GroupsRoundTrip(bits, high + mask, n, rest);
    }
  }

  lemma GroupsRoundTrip(bits: nat, first: u8, n: u64, rest: seq<u8>)
    requires bits <= 7 && first % Pow2(bits) == Pow2(bits) - 1 <= n
    ensures var printed := [first] + Groups(n - (Pow2(bits) - 1));
            IntegerAt(bits, printed + rest) == Ok((n, |printed|)) && |printed| <= 11
  {
    hide IntegerAt, GroupSum, Terminator, Groups, Pow2;
    Pow2Small(bits);
    var mask := Pow2(bits) - 1;
    var groups := Groups(n - mask);
    var data := [first] + groups + rest;
    Pow2Of70();
    GroupsLength(n - mask, 10);
    GroupsParse(n - mask, rest);
    assert data[1..] == groups + rest;
    assert data[1..1 + |groups|] == groups;
    IntegerExact(bits, data, |groups|);
  }

  lemma LowBits(high: nat, low: nat, p: nat)
    requires low < p && high % p == 0
    ensures (high + low) % p == low && (high + low) / p == high / p
  {
    DivModOf(high, p);
    DivMod(p, high / p, low);
  }

  /** The flag bits above the integer come through. */
  lemma PrefixBits(prefix: u8, bits: nat, n: nat)
    requires bits <= 7
    ensures PrintInteger(prefix, bits, n)[0] / Pow2(bits) == prefix % Pow2(8 - bits)
  {
    HighBits(prefix, bits);
    Pow2Small(bits);
    var high := High(prefix, bits);
    var low := if n < Pow2(bits) - 1 then n else Pow2(bits) - 1;
    LowBits(high, low, Pow2(bits));
  }

  /** `(value as u8) & mask` */
  function Masked(value: u64, bits: nat): (low: nat)
    ensures low < Pow2(bits)
  {
    value % 0x100 % Pow2(bits)
  }

  method WriteInteger(prefix: u8, bits: u8, value: u64, writer: Writer) returns (len: nat)
    requires bits <= 7
    modifies writer
    ensures writer.written == old(writer.written) + PrintInteger(prefix, bits, value)
    ensures len == |PrintInteger(prefix, bits, value)|
  {
    hide Pow2, Or, Groups, High, Masked;
    Pow2Small(bits);
    HighBits(prefix, bits);
    var mask := Pow2(bits) - 1;
    var high := High(prefix, bits);
    len := 1;
    OrLow(prefix, bits, Masked(value, bits));
    OrLow(prefix, bits, mask);
    if value < mask {
      SmallModulo(value, bits);
      var output := Or(high, Masked(value, bits));
      writer.WriteAll([output]);
      return;
    }
    writer.WriteAll([Or(high, mask)]);
    var n: nat := value - mask;
    ghost var done := [high + mask];
    while n >= 128
      invariant writer.written == old(writer.written) + done && len == |done|
      invariant done + Groups(n) == [high + mask] + Groups(value - mask)
    {
      OrTop(n % 128);
      GroupsStep(n);
      assert done + Groups(n) == done + [n % 128 + 128] + Groups(n / 128);
      writer.WriteAll([Or(0x80, n % 128)]);
      done := done + [n % 128 + 128];
      n := n / 128;
      len := len + 1;
    }
    GroupsStep(n);
    writer.WriteAll([n % 128]);
    len := len + 1;
  }

  lemma SmallModulo(value: u64, bits: nat)
    requires bits <= 7 && value < Pow2(bits)
    ensures Masked(value, bits) == value
  {
    hide Pow2;
    Pow2Small(bits);
    DivMod(Pow2(bits), 0, value);
  }

  lemma OrTop(low: nat)
    requires low < 128
    ensures Or(0x80, low) == 0x80 + low
  {
    assert Pow2(7) == 128;
    OrDisjoint(1, low, 7);
  }

  lemma OrLow(prefix: u8, bits: nat, low: nat)
    requires bits <= 7 && low < Pow2(bits)
    ensures Or(High(prefix, bits), low) == High(prefix, bits) + low
  {
    hide Pow2, Or;
    HighBits(prefix, bits);
    var high := High(prefix, bits);
    DivModOf(high, Pow2(bits));
    assert high == (high / Pow2(bits)) * Pow2(bits);
    OrDisjoint(high / Pow2(bits), low, bits);
  }

  // ---------- strings ----------

  /** The string literal at the front of `data` and its length. */
  ghost function StringAt(data: seq<u8>): Result<(seq<u8>, nat), DecodeError> {
    match IntegerAt(7, data)
    case Err(e) => Err(e)
    case Ok((len, parsed)) =>
      if parsed + len > |data| then Err(TooSmall)
      else
        var payload := data[parsed..parsed + len];
        if Bit(data[0], 7) then
          match Decode(payload) case Err(e) => Err(e) case Ok(s) => Ok((s, parsed + len))
        else Ok((payload, parsed + len))
  }

  /** `data.get(from..to)` */
  function Get(data: seq<u8>, from: nat, to: nat): Option<seq<u8>> {
    if from <= to <= |data| then Some(data[from..to]) else None
  }

  method ParseString(data: seq<u8>, out: Buffer) returns (r: Result<nat, DecodeError>)
    requires out.Valid() && |data| < TWO_64
    modifies out.Repr()
    ensures out.Valid() && fresh(out.Repr() - old(out.Repr()))
    ensures r.Ok? ==> StringAt(data) == Ok((out.Contents(), r.value))
    ensures r.Err? ==> StringAt(data) == Err(r.error)
  {
    hide Decode, Bit, IntegerAt, BitsOf;
    var integer := ParseInteger(7, data);
    if integer.Err? {
      return Err(integer.error);
    }
    var (len, parsed) := integer.value;
    // The sum wraps around; a wrapped end lies before the start, which `get` rejects.
    var end := (parsed + len) % TWO_64;
    IntegerSize(7, data);
    var d := Get(data, parsed, end);
    if Bit(data[0], 7) {
      if d.None? {
        return Err(TooSmall);
      }
      assert d.value == data[parsed..parsed + len];
      var decoded := DecodeBytes(d.value, out);
      if decoded.Err? {
        return Err(decoded.error);
      }
    } else {
      if d.None? {
        return Err(TooSmall);
      }
      out.Clear();
      out.ReserveLen(|d.value|);
      out.PushSlice(d.value);
      assert out.Contents() == d.value;
    }
    assert end == parsed + len;
    return Ok(end);
  }

  lemma IntegerSize(bits: nat, data: seq<u8>)
    ensures IntegerAt(bits, data).Ok? ==> 1 <= IntegerAt(bits, data).value.1 <= |data|
    ensures IntegerAt(bits, data).Ok? ==> IntegerAt(bits, data).value.1 <= 11
  {
  }

  /** What `write_string` prints at a given prefix width: Huffman coded if that is announced to be
      shorter, else as is. */
  function PrintString(bits: nat, s: seq<u8>): seq<u8>
    requires bits <= 7
  {
    if PredictedSize(s) < |s| then PrintInteger(1, bits, PredictedSize(s)) + Encode(s)
    else PrintInteger(0, bits, |s|) + s
  }

  /** What is announced is what follows, and never more than the string itself, as long as the code
      lengths add up within 32 bits. */
  lemma AnnouncedTruly(bits: nat, s: seq<u8>)
    requires bits <= 7 && |CodesOf(s)| < TWO_32
    ensures var huffman := PredictedSize(s) < |s|;
            var payload := if huffman then Encode(s) else s;
            && PrintString(bits, s) == PrintInteger(if huffman then 1 else 0, bits, |payload|) + payload
            && |payload| <= |s| && |payload| <= |Encode(s)|
  {
    hide Encode, CodesOf, PrintInteger, PredictedSize;
    PredictionExact(s);
  }

  /** The width the program passes to `write_integer` (literal.rs:100 and 111); its parser reads 7. */
  const WRITTEN_WIDTH: u8 := 1

  method WriteString(bits: u8, s: seq<u8>, writer: Writer) returns (len: nat)
    requires bits <= 7 && |s| < TWO_64
    modifies writer
    ensures writer.written == old(writer.written) + PrintString(bits, s)
    ensures len == |PrintString(bits, s)| <==> PredictedSize(s) >= |s| || |CodesOf(s)| < TWO_32
  {
    hide Encode, CodesOf, PrintInteger, PredictedSize, BitsOf, Ones;
    PredictionExact(s);
    var size := GetSize(s);
    if size < |s| {
      var buffer := new Buffer(size);
      var i := WriteInteger(1, bits, size, writer);
      EncodeBytes(s, buffer);
      var encoded := buffer.AsSlice();
      writer.WriteAll(encoded);
      buffer.Release();
      len := i + size;
    } else {
      var i := WriteInteger(0, bits, |s|, writer);
      writer.WriteAll(s);
      len := i + |s|;
    }
  }
}
