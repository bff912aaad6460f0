/** Machine words as ranges of integers, their bits, and their byte encodings.
    `usize` is taken to be 64 bits wide, as on the platforms the program is built for. */
module Words {
  import opened Arithmetic

  type u8 = x: int | 0 <= x < 0x100
  type u16 = x: int | 0 <= x < 0x1_0000
  type u32 = x: int | 0 <= x < 0x1_0000_0000
  type u64 = x: int | 0 <= x < 0x1_0000_0000_0000_0000
  type usize = u64

  const TWO_32: int := 0x1_0000_0000
  const TWO_64: int := 0x1_0000_0000_0000_0000

  /** `1 << n` without truncation. */
  function Pow2(n: nat): (p: nat)
    ensures p > 0
  {
    if n == 0 then 1 else 2 * Pow2(n - 1)
  }

  lemma PowersOfTwo()
    ensures Pow2(0) == 1 && Pow2(1) == 2 && Pow2(2) == 4 && Pow2(3) == 8 && Pow2(4) == 16
    ensures Pow2(5) == 32 && Pow2(6) == 64 && Pow2(7) == 128 && Pow2(8) == 256
  {
  }

  lemma {:induction false} Pow2Add(a: nat, b: nat)
    ensures Pow2(a + b) == Pow2(a) * Pow2(b)
  {
    if a != 0 {
      Pow2Add(a - 1, b);
      assert Pow2(a + b) == 2 * Pow2(a - 1 + b);
      assert 2 * (Pow2(a - 1) * Pow2(b)) == (2 * Pow2(a - 1)) * Pow2(b);
    }
  }

  // ---------- bits of one word ----------

  /** `(v >> k) & 1 == 1`. */
  predicate Bit(v: nat, k: nat)
    decreases k
  {
    if k == 0 then v % 2 == 1 else Bit(v / 2, k - 1)
  }

  /** `a | b`. */
  function Or(a: nat, b: nat): nat
    decreases a
  {
    if a == 0 then b
    else 2 * Or(a / 2, b / 2) + (if a % 2 == 1 || b % 2 == 1 then 1 else 0)
  }

  lemma {:induction false} ZeroBit(k: nat)
    ensures !Bit(0, k)
    decreases k
  {
    if k > 0 { ZeroBit(k - 1); }
  }

  lemma {:induction false} BitAsQuotient(v: nat, k: nat)
    ensures Bit(v, k) <==> v / Pow2(k) % 2 == 1
    decreases k
  {
    if k > 0 {
      BitAsQuotient(v / 2, k - 1);
      DivTwice(v, Pow2(k - 1));
    }
  }

  lemma {:induction false} OrBit(a: nat, b: nat, k: nat)
    ensures Bit(Or(a, b), k) <==> Bit(a, k) || Bit(b, k)
    decreases k
  {
    hide Or;
    OrStep(a, b);
    if a == 0 {
      ZeroBit(k);
    } else if k > 0 {
      OrBit(a / 2, b / 2, k - 1);
    }
  }

  lemma OrStep(a: nat, b: nat)
    ensures a == 0 ==> Or(a, b) == b
    ensures a != 0 ==> Or(a, b) / 2 == Or(a / 2, b / 2)
    ensures a != 0 ==> (Or(a, b) % 2 == 1 <==> a % 2 == 1 || b % 2 == 1)
  {
  }

  lemma {:induction false} OrBound(a: nat, b: nat, n: nat)
    requires a < Pow2(n) && b < Pow2(n)
    ensures Or(a, b) < Pow2(n)
    decreases n
  {
    if n > 0 && a != 0 { OrBound(a / 2, b / 2, n - 1); }
  }

  /** Words with no bit in common are joined by addition. */
  lemma {:induction false} OrDisjoint(a: nat, b: nat, k: nat)
    requires b < Pow2(k)
    ensures Or(a * Pow2(k), b) == a * Pow2(k) + b
    decreases k
  {
    if k == 0 {
      OrZero(a);
    } else {
      var half := a * Pow2(k - 1);
      assert a * Pow2(k) == 2 * half by { assert Pow2(k) == 2 * Pow2(k - 1); }
      OrDisjoint(a, b / 2, k - 1);
      OrEvenStep(half, b);
    }
  }

  lemma OrEvenStep(half: nat, b: nat)
    ensures Or(2 * half, b) == 2 * Or(half, b / 2) + b % 2
  {
  }

  lemma {:induction false} OrZero(a: nat)
    ensures Or(a, 0) == a
    decreases a
  {
    if a != 0 { OrZero(a / 2); }
  }

  /** `1 << j` has bit j and no other. */
  lemma {:induction false} Pow2Bit(j: nat, k: nat)
    ensures Bit(Pow2(j), k) <==> k == j
    decreases k
  {
    if k == 0 {
    } else if j == 0 {
      ZeroBit(k - 1);
    } else {
      Pow2Bit(j - 1, k - 1);
    }
  }

  /** `(1 << j) - 1` has exactly the bits below j. */
  lemma {:induction false} MaskBit(j: nat, k: nat)
    ensures Bit(Pow2(j) - 1, k) <==> k < j
    decreases k
  {
    if j == 0 {
      ZeroBit(k);
    } else if k > 0 {
      MaskBit(j - 1, k - 1);
      assert (Pow2(j) - 1) / 2 == Pow2(j - 1) - 1;
    }
  }

  lemma {:induction false} BitsDetermine(a: nat, b: nat, n: nat)
    requires a < Pow2(n) && b < Pow2(n)
    requires forall k: nat :: k < n ==> (Bit(a, k) <==> Bit(b, k))
    ensures a == b
    decreases n
  {
    if n > 0 {
      assert Bit(a, 0) <==> Bit(b, 0);
      forall k: nat | k < n - 1
        ensures Bit(a / 2, k) <==> Bit(b / 2, k)
      {
        assert Bit(a, k + 1) <==> Bit(b, k + 1);
      }
      BitsDetermine(a / 2, b / 2, n - 1);
    }
  }

  // ---------- bits of a byte string ----------

  /** The bits of a byte string, most significant bit of each byte first. */
  function BitsOf(data: seq<u8>): (bits: seq<bool>)
    ensures |bits| == 8 * |data|
  {
    seq(8 * |data|, i requires 0 <= i < 8 * |data| => Bit(data[i / 8], 7 - i % 8))
  }

  lemma BitsOfConcat(a: seq<u8>, b: seq<u8>)
    ensures BitsOf(a + b) == BitsOf(a) + BitsOf(b)
  {
    forall i | 0 <= i < 8 * |a + b|
      ensures BitsOf(a + b)[i] == (BitsOf(a) + BitsOf(b))[i]
    {
      if i >= 8 * |a| {
        assert (a + b)[i / 8] == b[(i - 8 * |a|) / 8];
      }
    }
  }

  lemma BitsOfInjective(a: seq<u8>, b: seq<u8>)
    requires BitsOf(a) == BitsOf(b)
    ensures a == b
  {
    assert |BitsOf(a)| == 8 * |a| && |BitsOf(b)| == 8 * |b|;
    forall i | 0 <= i < |a|
      ensures a[i] == b[i]
    {
      forall k: nat | k < 8
        ensures Bit(a[i], k) <==> Bit(b[i], k)
      {
        assert BitsOf(a)[8 * i + (7 - k)] == BitsOf(b)[8 * i + (7 - k)];
      }
      assert Pow2(8) == 256;
      BitsDetermine(a[i], b[i], 8);
    }
  }

  /** The number whose bits, most significant first, are `bits`. */
  function FromBits(bits: seq<bool>): (v: nat)
    ensures v < Pow2(|bits|)
  {
    if bits == [] then 0
    else 2 * FromBits(bits[..|bits| - 1]) + (if bits[|bits| - 1] then 1 else 0)
  }

  lemma {:induction false} FromBitsBit(bits: seq<bool>, k: nat)
    requires k < |bits|
    ensures Bit(FromBits(bits), k) <==> bits[|bits| - 1 - k]
    decreases k
  {
    if k > 0 {
      FromBitsBit(bits[..|bits| - 1], k - 1);
      assert FromBits(bits) / 2 == FromBits(bits[..|bits| - 1]);
    }
  }

  /** Whole bytes from bits, the inverse of `BitsOf`. */
  function Pack(bits: seq<bool>): (data: seq<u8>)
    requires |bits| % 8 == 0
    ensures |data| == |bits| / 8
  {
    assert Pow2(8) == 256;
    seq(|bits| / 8, i requires 0 <= i < |bits| / 8 => FromBits(bits[8 * i..8 * i + 8]))
  }

  lemma BitsOfPack(bits: seq<bool>)
    requires |bits| % 8 == 0
    ensures BitsOf(Pack(bits)) == bits
  {
    forall i | 0 <= i < |bits|
      ensures BitsOf(Pack(bits))[i] == bits[i]
    {
      var j := i / 8;
      var word := bits[8 * j..8 * j + 8];
      assert i == 8 * j + i % 8;
      assert word[i % 8] == bits[i];
      assert Pack(bits)[j] == FromBits(word);
      FromBitsBit(word, 7 - i % 8);
      assert BitsOf(Pack(bits))[i] == Bit(Pack(bits)[j], 7 - i % 8);
    }
  }

  // ---------- words as bytes ----------

  function Pow256(k: nat): (p: nat)
    ensures p > 0
  {
    if k == 0 then 1 else 256 * Pow256(k - 1)
  }

  /** The low k bytes of n, least significant first (`to_le_bytes`). */
  function ToLE(n: nat, k: nat): (s: seq<u8>)
    ensures |s| == k
    decreases k
  {
    if k == 0 then [] else [n % 256] + ToLE(n / 256, k - 1)
  }

  function FromLE(s: seq<u8>): (n: nat)
    ensures n < Pow256(|s|)
  {
    if s == [] then 0 else s[0] + 256 * FromLE(s[1..])
  }

  lemma {:induction false} FromToLE(n: nat, k: nat)
    requires n < Pow256(k)
    ensures FromLE(ToLE(n, k)) == n
    decreases k
  {
    if k > 0 {
      FromToLE(n / 256, k - 1);
      assert ToLE(n, k)[1..] == ToLE(n / 256, k - 1);
    }
  }

  /** The low k bytes of n, most significant first (`to_be_bytes`). */
  function ToBE(n: nat, k: nat): (s: seq<u8>)
    ensures |s| == k
    decreases k
  {
    if k == 0 then [] else ToBE(n / 256, k - 1) + [n % 256]
  }

  function FromBE(s: seq<u8>): (n: nat)
    ensures n < Pow256(|s|)
  {
    if s == [] then 0 else 256 * FromBE(s[..|s| - 1]) + s[|s| - 1]
  }

  lemma {:induction false} FromToBE(n: nat, k: nat)
    requires n < Pow256(k)
    ensures FromBE(ToBE(n, k)) == n
    decreases k
  {
    if k > 0 {
      FromToBE(n / 256, k - 1);
      assert ToBE(n, k)[..k - 1] == ToBE(n / 256, k - 1);
    }
  }

  function Zeros(n: nat): (s: seq<u8>)
    ensures |s| == n
  {
    seq(n, i => 0)
  }

  /** The bytes of a byte-string literal. */
  function Ascii(s: string): (b: seq<u8>)
    ensures |b| == |s|
  {
    seq(|s|, i requires 0 <= i < |s| => if s[i] < 128 as char then s[i] as int else 0)
  }
}
