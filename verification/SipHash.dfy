/** The streaming SipHash of the static-table index (context.rs). */
module SipHash {
  import opened Arithmetic
  import opened Words

  // ---------- the hash of a whole message ----------

  /** The four words of hash state. */
  datatype V = V(v0: bv64, v1: bv64, v2: bv64, v3: bv64)

  /** `wrapping_add`, `^` and `rotate_left` */
  function Plus(a: bv64, b: bv64): bv64 { a + b }
  function Xor(a: bv64, b: bv64): bv64 { a ^ b }
  function Rotl(a: bv64, n: bv64): bv64
    requires 0 < n < 64
  {
    (a << n) | (a >> (64 - n))
  }

  /** `sipround` */
  function Round(v: V): V {
    var a0 := Plus(v.v0, v.v1);
    var a1 := Xor(Rotl(v.v1, 13), a0);
    var b0 := Rotl(a0, 32);
    var a2 := Plus(v.v2, v.v3);
    var a3 := Xor(Rotl(v.v3, 16), a2);
    var c0 := Plus(b0, a3);
    var b3 := Xor(Rotl(a3, 21), c0);
    var b2 := Plus(a2, a1);
    var b1 := Xor(Rotl(a1, 17), b2);
    V(c0, b1, Rotl(b2, 32), b3)
  }

  function Rounds(v: V, n: nat): V {
    if n == 0 then v else Round(Rounds(v, n - 1))
  }

  /** `u64::from_le_bytes` */
  function Word(bytes: seq<u8>): bv64
    requires |bytes| == 8
  {
    assert Pow256(8) == TWO_64;
    FromLE(bytes) as bv64
  }

  /** One message word, mixed in with c rounds. */
  function Mix(c: nat, v: V, m: bv64): V {
    var w := Rounds(v.(v3 := Xor(v.v3, m)), c);
    w.(v0 := Xor(w.v0, m))
  }

  /** All whole words of a message. */
  function Absorb(c: nat, v: V, msg: seq<u8>): V
    decreases |msg|
  {
    if |msg| < 8 then v else Absorb(c, Mix(c, v, Word(msg[..8])), msg[8..])
  }

  /** `data` written over the bytes of s from `at` on. */
  function Spliced(s: seq<u8>, at: nat, data: seq<u8>): seq<u8>
    requires at + |data| <= |s|
  {
    s[..at] + data + s[at + |data|..]
  }

  lemma SplicedZeros(tail: seq<u8>, n: nat, data: seq<u8>)
    requires |data| <= n
    ensures Spliced(tail + Zeros(n), |tail|, data) == tail + data + Zeros(n - |data|)
    ensures |data| == n ==> Spliced(tail + Zeros(n), |tail|, data) == tail + data
    ensures tail == [] ==> tail + Zeros(n) == Zeros(n)
    ensures tail == [] ==> tail + data == data
  {
  }

  /** The whole words of a message, and the bytes after them. */
  function Whole(msg: seq<u8>): seq<u8> {
    msg[..8 * (|msg| / 8)]
  }

  function Tail(msg: seq<u8>): (tail: seq<u8>)
    ensures |tail| < 8
  {
    msg[8 * (|msg| / 8)..]
  }

  /** A length in 64 bits. */
  function Wrapped(n: nat): u64 {
    n % TWO_64
  }

  /** The last word: the tail padded with zeros, and the length modulo 256 on top. */
  function LastWord(length: nat, padded: seq<u8>): bv64
    requires |padded| == 8
  {
    TopWord(length, Word(padded))
  }

  /** `length << 56 | tail` in 64 bits */
  function TopWord(length: nat, tail: bv64): bv64 {
    AboveTail(length % 256, tail)
  }

  function AboveTail(low: u8, tail: bv64): bv64 {
    (low as bv64 << 56) | tail
  }

  function Finish(d: nat, v: V): bv64 {
    var w := Rounds(v.(v2 := Xor(v.v2, 0xFF)), d);
    Xor(Xor(Xor(w.v0, w.v1), w.v2), w.v3)
  }

  function Start(key: seq<u8>): V
    requires |key| == 16
  {
    var k0, k1 := Word(key[..8]), Word(key[8..]);
    V(Xor(0x736f6d6570736575, k0), Xor(0x646f72616e646f6d, k1),
      Xor(0x6c7967656e657261, k0), Xor(0x7465646279746573, k1))
  }

  /** SipHash-c-d of a message. */
  function Hash(c: nat, d: nat, key: seq<u8>, msg: seq<u8>): bv64
    requires |key| == 16
  {
    var padded := Tail(msg) + Zeros(8 - |Tail(msg)|);
    Finish(d, Mix(c, Absorb(c, Start(key), msg), LastWord(|msg|, padded)))
  }

  lemma {:induction false} AbsorbConcat(c: nat, v: V, a: seq<u8>, b: seq<u8>)
    requires |a| % 8 == 0
    ensures Absorb(c, v, a + b) == Absorb(c, Absorb(c, v, a), b)
    decreases |a|
  {
    hide Mix;
    if a == [] {
      assert a + b == b;
    } else {
      assert (a + b)[..8] == a[..8] && (a + b)[8..] == a[8..] + b;
      AbsorbConcat(c, Mix(c, v, Word(a[..8])), a[8..], b);
    }
  }

  /** A message absorbed up to its last whole word, and one more word. */
  lemma AbsorbWord(c: nat, v: V, done: seq<u8>, word: seq<u8>, rest: seq<u8>)
    requires |done| % 8 == 0 && |word| == 8
    ensures Absorb(c, v, done + word + rest) == Absorb(c, Mix(c, Absorb(c, v, done), Word(word)), rest)
  {
    hide Mix, Word;
    AbsorbConcat(c, v, done, word + rest);
    assert done + word + rest == done + (word + rest);
    assert (word + rest)[..8] == word && (word + rest)[8..] == rest;
  }

  // ---------- the streaming hash ----------

  class Hasher {
    const C: nat
    const D: nat
    var v0: bv64
    var v1: bv64
    var v2: bv64
    var v3: bv64
    var dgstLen: u64
    const dgstBuf: array<u8>
    ghost var key: seq<u8>
    ghost var msg: seq<u8>

    ghost function State(): V
      reads this
    {
      V(v0, v1, v2, v3)
    }

    /** The words so far are absorbed; the buffer holds the bytes after them and then zeros. */
    ghost predicate Valid()
      reads this, dgstBuf
    {
      && dgstBuf.Length == 8 && |key| == 16
      && dgstLen == Wrapped(|msg|)
      && State() == Absorb(C, Start(key), msg)
      && dgstBuf[..] == Tail(msg) + Zeros(8 - |Tail(msg)|)
    }

    constructor (c: nat, d: nat)
      ensures C == c && D == d && dgstBuf.Length == 8 && fresh(dgstBuf)
    {
      C, D := c, d;
      v0, v1, v2, v3 := 0, 0, 0, 0;
      dgstLen := 0;
      dgstBuf := new u8[8];
    }

    method Init(key: seq<u8>)
      requires |key| == 16 && dgstBuf.Length == 8
      modifies this, dgstBuf
      ensures Valid() && this.key == key && msg == []
    {
      hide Word, Xor, Absorb;
      AbsorbNothing(C, Start(key), []);
      v0 := 0x736f6d6570736575;
      v1 := 0x646f72616e646f6d;
      v2 := 0x6c7967656e657261;
      v3 := 0x7465646279746573;
      var k0 := Word(key[0..8]);
      var k1 := Word(key[8..16]);
      v3 := Xor(v3, k1);
      v2 := Xor(v2, k0);
      v1 := Xor(v1, k1);
      v0 := Xor(v0, k0);
      dgstLen := 0;
      Fill();
      this.key := key;
      msg := [];
      assert key[0..8] == key[..8] && key[8..16] == key[8..];
    }

    /** `dgst_buf.fill(0)` */
    method Fill()
      requires dgstBuf.Length == 8
      modifies dgstBuf
      ensures unchanged(this)
      ensures dgstBuf[..] == Zeros(8)
    {
      forall i | 0 <= i < 8 {
        dgstBuf[i] := 0;
      }
    }

    /** `dgst_buf[at..at + data.len()].copy_from_slice(data)` */
    method CopyIn(at: nat, data: seq<u8>)
      requires dgstBuf.Length == 8 && at + |data| <= 8
      modifies dgstBuf
      ensures unchanged(this)
      ensures dgstBuf[..] == Spliced(old(dgstBuf[..]), at, data)
    {
      forall i | 0 <= i < |data| {
        dgstBuf[at + i] := data[i];
      }
    }

    /** The buffer with only the bytes after the last whole word. */
    method KeepTail(data: seq<u8>)
      requires dgstBuf.Length == 8 && |data| < 8
      modifies dgstBuf
      ensures unchanged(this)
      ensures dgstBuf[..] == data + Zeros(8 - |data|)
    {
      Fill();
      SplicedZeros([], 8, data);
      CopyIn(0, data);
    }

    method Sipround()
      modifies this`v0, this`v1, this`v2, this`v3
      ensures State() == Round(old(State()))
    {
      hide Plus, Xor, Rotl;
      v0 := Plus(v0, v1);
      v1 := Rotl(v1, 13);
      v1 := Xor(v1, v0);
      v0 := Rotl(v0, 32);
      v2 := Plus(v2, v3);
      v3 := Rotl(v3, 16);
      v3 := Xor(v3, v2);
      v0 := Plus(v0, v3);
      v3 := Rotl(v3, 21);
      v3 := Xor(v3, v0);
      v2 := Plus(v2, v1);
      v1 := Rotl(v1, 17);
      v1 := Xor(v1, v2);
      v2 := Rotl(v2, 32);
    }

    method Siprounds(n: nat)
      modifies this`v0, this`v1, this`v2, this`v3
      ensures State() == Rounds(old(State()), n)
    {
      hide Round;
      for i := 0 to n
        invariant State() == Rounds(old(State()), i)
      {
        Sipround();
      }
    }

    /** The three steps with which `add` and `digest` mix in a word. */
    method MixIn(m: bv64)
      modifies this`v0, this`v1, this`v2, this`v3
      ensures State() == Mix(C, old(State()), m)
    {
      hide Round, Rounds, Xor;
      v3 := Xor(v3, m);
      Siprounds(C);
      v0 := Xor(v0, m);
    }

    /** Buffers a piece that does not complete the open word. */
    method AddShort(ghost before: seq<u8>, bufLen: nat, piece: seq<u8>)
      requires |key| == 16 && dgstBuf.Length == 8 && dgstLen == Wrapped(|msg|) && msg == before + piece
      requires bufLen == |Tail(before)| && bufLen + |piece| < 8
      requires dgstBuf[..] == Tail(before) + Zeros(8 - bufLen)
      requires State() == Absorb(C, Start(key), before)
      modifies dgstBuf
      ensures Valid()
    {
      hide Mix, Word, Start, Absorb, Zeros, Tail, Spliced, Wrapped;
      SplicedZeros(Tail(before), 8 - bufLen, piece);
      CopyIn(bufLen, piece);
      ShortPiece(C, Start(key), before, piece);
    }

    /** Fills the buffer up to a whole word and mixes that in. */
    method CompleteWord(ghost before: seq<u8>, bufLen: nat, front: seq<u8>) returns (ghost done: seq<u8>)
      requires |key| == 16 && dgstBuf.Length == 8 && bufLen == |Tail(before)| && |front| == 8 - bufLen
      requires dgstBuf[..] == Tail(before) + Zeros(8 - bufLen)
      requires State() == Absorb(C, Start(key), before)
      modifies this`v0, this`v1, this`v2, this`v3, dgstBuf
      ensures |done| % 8 == 0 && done == before + front
      ensures State() == Absorb(C, Start(key), done)
    {
      hide Mix, Word, Start, Absorb, Zeros, Tail, Spliced;
      SplicedZeros(Tail(before), |front|, front);
      CopyIn(bufLen, front);
      done := before + front;
      FirstWord(C, Start(key), before, front);
      MixIn(Word(dgstBuf[..]));
    }

    /** The rest of `add` once the buffered word is mixed in: whole words, then the new tail. */
    method AddAligned(ghost before: seq<u8>, data: seq<u8>)
      requires |key| == 16 && dgstBuf.Length == 8 && dgstLen == Wrapped(|msg|)
      requires |before| % 8 == 0 && before + data == msg
      requires State() == Absorb(C, Start(key), before)
      modifies this`v0, this`v1, this`v2, this`v3, dgstBuf
      ensures Valid()
    {
      hide Mix, Word, Start, Absorb, Zeros, Tail, Wrapped;
      ghost var done := before;
      var rest := data;
      while |rest| >= 8
        invariant |done| % 8 == 0 && done + rest == msg
        invariant State() == Absorb(C, Start(key), done)
      {
        MixIn(Word(rest[0..8]));
        NextWord(C, Start(key), done, rest);
        done := done + rest[0..8];
        rest := rest[8..];
      }
      AbsorbTail(C, Start(key), done, rest);
      KeepTail(rest);
    }

    method Add(piece: seq<u8>)
      requires Valid() && |piece| < TWO_64
      modifies this, dgstBuf
      ensures Valid() && key == old(key) && msg == old(msg) + piece
    {
      hide Mix, Word, Start, Absorb, Zeros, Tail, Whole, Spliced, Wrapped;
      var data := piece;
      var bufLen := dgstLen % 8;
      assert bufLen == |Tail(msg)| by { OpenLength(msg); }
      var bufRem := 8 - bufLen;
      dgstLen := Wrapped(dgstLen + |data|);
      ghost var before := msg;
      msg := msg + piece;
      assert dgstLen == Wrapped(|msg|) by { WrappedSum(|before|, |piece|); }

      if |data| < bufRem {
        AddShort(before, bufLen, data);
        return;
      }

      ghost var done := CompleteWord(before, bufLen, data[..bufRem]);
      data := data[bufRem..];
      assert done + data == msg;
      AddAligned(done, data);
    }

    method Digest() returns (hash: bv64)
      requires Valid()
      modifies this`v0, this`v1, this`v2, this`v3
      ensures hash == Hash(C, D, key, msg)
    {
      hide Mix, Word, Start, Absorb, Round, Rounds, Xor, TopWord, Tail, Zeros, Wrapped;
      var b := TopWord(dgstLen, Word(dgstBuf[..]));
      TopWordLow(|msg|, Word(dgstBuf[..]));
      MixIn(b);
      v2 := Xor(v2, 0xFF);
      Siprounds(D);
      hash := Xor(Xor(Xor(v0, v1), v2), v3);
    }
  }

  /** Only the low byte of the length reaches the last word. */
  lemma TopWordLow(length: nat, tail: bv64)
    ensures TopWord(Wrapped(length), tail) == TopWord(length, tail)
  {
    hide AboveTail, Wrapped;
    LengthByte(length);
  }

  lemma LengthByte(length: nat)
    ensures Wrapped(length) % 256 == length % 256
  {
    var q, r := length / TWO_64, length % TWO_64;
    assert length == 256 * (0x100_0000_0000_0000 * q + r / 256) + r % 256;
  }

  lemma AbsorbNothing(c: nat, v: V, done: seq<u8>)
    ensures Absorb(c, v, []) == v
    ensures done + [] == done
    ensures forall w :: Absorb(c, w, []) == w
  {
  }

  /** A message made of whole words and fewer than eight bytes more. */
  lemma Split(done: seq<u8>, tail: seq<u8>)
    requires |done| % 8 == 0 && |tail| < 8
    ensures Whole(done + tail) == done && Tail(done + tail) == tail
  {
    DivMod(8, |done| / 8, |tail|);
  }

  lemma WholeAndTail(msg: seq<u8>)
    ensures msg == Whole(msg) + Tail(msg) && |Whole(msg)| % 8 == 0
  {
  }

  /** Bytes after the last whole word do not reach the state. */
  lemma AbsorbTail(c: nat, v: V, done: seq<u8>, tail: seq<u8>)
    requires |done| % 8 == 0 && |tail| < 8
    ensures Absorb(c, v, done + tail) == Absorb(c, v, done)
    ensures Tail(done + tail) == tail
  {
    hide Mix, Tail, Whole;
    Split(done, tail);
    AbsorbConcat(c, v, done, tail);
    assert Absorb(c, Absorb(c, v, done), tail) == Absorb(c, v, done);
  }

  /** The length in 64 bits tells how many bytes are in the buffer. */
  lemma OpenLength(msg: seq<u8>)
    ensures Wrapped(|msg|) % 8 == |Tail(msg)|
  {
    var n := |msg|;
    var q := n / TWO_64;
    assert n == 8 * (0x2000_0000_0000_0000 * q + n % TWO_64 / 8) + n % TWO_64 % 8;
  }

  lemma WrappedSum(n: nat, more: nat)
    ensures Wrapped(Wrapped(n) + more) == Wrapped(n + more)
  {
  }

  /** A piece that does not complete the open word. */
  lemma ShortPiece(c: nat, v: V, msg: seq<u8>, piece: seq<u8>)
    requires |Tail(msg)| + |piece| < 8
    ensures Absorb(c, v, msg + piece) == Absorb(c, v, msg)
    ensures Tail(msg + piece) == Tail(msg) + piece
  {
    hide Absorb, Tail, Whole;
    WholeAndTail(msg);
    AbsorbTail(c, v, Whole(msg), Tail(msg));
    AbsorbTail(c, v, Whole(msg), Tail(msg) + piece);
    assert msg + piece == Whole(msg) + (Tail(msg) + piece);
  }

  /** The word that a piece completes. */
  lemma FirstWord(c: nat, v: V, msg: seq<u8>, front: seq<u8>)
    requires |Tail(msg)| + |front| == 8
    ensures |msg + front| % 8 == 0
    ensures Absorb(c, v, msg + front) == Mix(c, Absorb(c, v, msg), Word(Tail(msg) + front))
  {
    hide Absorb, Mix, Word, Tail, Whole;
    WholeAndTail(msg);
    var word := Tail(msg) + front;
    AbsorbTail(c, v, Whole(msg), Tail(msg));
    AbsorbWord(c, v, Whole(msg), word, []);
    AbsorbNothing(c, v, Whole(msg) + word);
    assert msg + front == Whole(msg) + word;
  }

  lemma NextWord(c: nat, v: V, done: seq<u8>, data: seq<u8>)
    requires |done| % 8 == 0 && |data| >= 8
    ensures Absorb(c, v, done + data[0..8]) == Mix(c, Absorb(c, v, done), Word(data[0..8]))
    ensures done + data == done + data[0..8] + data[8..]
    ensures |done + data[0..8]| % 8 == 0
  {
    hide Absorb, Mix, Word;
    AbsorbWord(c, v, done, data[0..8], []);
    AbsorbNothing(c, v, done + data[0..8]);
    assert data == data[0..8] + data[8..];
  }

  function Joined(pieces: seq<seq<u8>>): seq<u8> {
    if pieces == [] then [] else Joined(pieces[..|pieces| - 1]) + pieces[|pieces| - 1]
  }

  /** Streaming is transparent: however a message is cut into pieces, empty ones and ones across word
      boundaries included, hashing the pieces hashes the message. */
  method HashPieces(hasher: Hasher, key: seq<u8>, pieces: seq<seq<u8>>) returns (hash: bv64)
    requires |key| == 16 && hasher.dgstBuf.Length == 8
    requires forall i :: 0 <= i < |pieces| ==> |pieces[i]| < TWO_64
    modifies hasher, hasher.dgstBuf
    ensures hash == Hash(hasher.C, hasher.D, key, Joined(pieces))
  {
    hide Hash, Hasher.Valid;
    hasher.Init(key);
    for i := 0 to |pieces|
      invariant hasher.Valid() && hasher.key == key && hasher.msg == Joined(pieces[..i])
    {
      hasher.Add(pieces[i]);
      assert pieces[..i + 1][..i] == pieces[..i];
    }
    assert pieces[..|pieces|] == pieces;
    hash := hasher.Digest();
  }
}
