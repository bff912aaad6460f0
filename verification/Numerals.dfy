/** Numbers in text, decimal and hexadecimal: the parser, and what it means. */
module Numerals {
  import opened Wrappers
  import opened Arithmetic
  import opened Words

  // ---------- the parser ----------

  /** `char::to_digit(radix)` for a radix of 10 or 16. */
  function Digit(c: u8, radix: nat): Option<nat> {
    if 48 <= c <= 57 then Some(c - 48)
    else if radix == 16 && 97 <= c <= 102 then Some(c - 87)
    else if radix == 16 && 65 <= c <= 70 then Some(c - 55)
    else None
  }

  function Digits(s: seq<u8>, radix: nat): Option<nat> {
    if s == [] then Some(0)
    else
      match (Digits(s[..|s| - 1], radix), Digit(s[|s| - 1], radix))
      case (Some(n), Some(d)) => Some(radix * n + d)
      case _ => None
  }

  /** `usize::from_str_radix`: an optional plus sign, then digits, within 64 bits. */
  function ParseUsize(s: seq<u8>, radix: nat): Option<usize> {
    var digits := if |s| > 1 && s[0] == 43 then s[1..] else s;
    if digits == [] then None
    else
      match Digits(digits, radix)
      case Some(n) => if n < TWO_64 then Some(n) else None
      case None => None
  }

  // ---------- numerals ----------

  /** The digit k, in either case. */
  predicate DigitIs(c: u8, k: nat) {
    k < 16 && (c == Ascii("0123456789abcdef")[k] || c == Ascii("0123456789ABCDEF")[k])
  }

  /** s is n written in a radix, with any number of leading zeros and digits in either case. */
  predicate Numeral(s: seq<u8>, n: nat, radix: nat)
    requires radix > 0
    decreases |s|
  {
    && s != [] && DigitIs(s[|s| - 1], n % radix)
    && (if |s| == 1 then n < radix else Numeral(s[..|s| - 1], n / radix, radix))
  }

  /** n written in a radix, as short as can be. */
  function Written(n: nat, radix: nat, upper: bool): (s: seq<u8>)
    requires 1 < radix <= 16
    ensures s != []
  {
    var digit := Ascii(if upper then "0123456789ABCDEF" else "0123456789abcdef")[n % radix];
    if n < radix then [digit] else Written(n / radix, radix, upper) + [digit]
  }

  /** What is written is a numeral, behind any number of zeros. */
  lemma {:induction false} WrittenIsNumeral(n: nat, radix: nat, upper: bool, zeros: nat)
    requires 1 < radix <= 16
    ensures Numeral(seq(zeros, _ => 48) + Written(n, radix, upper), n, radix)
    decreases n
  {
    hide DigitIs, Numeral;
    var padding := seq(zeros, _ => 48);
    var digit := Ascii(if upper then "0123456789ABCDEF" else "0123456789abcdef")[n % radix];
    DigitWritten(n % radix, upper);
    SmallRemainder(n, radix);
    if n < radix {
      if zeros > 0 { ZerosAreNumeral(zeros, radix); }
      OneMoreDigit(padding, digit, n, radix);
    } else {
      WrittenIsNumeral(n / radix, radix, upper, zeros);
      OneMoreDigit(padding + Written(n / radix, radix, upper), digit, n, radix);
      assert padding + Written(n, radix, upper) == padding + Written(n / radix, radix, upper) + [digit];
    }
  }

  lemma SmallRemainder(n: nat, radix: nat)
    requires radix > 0
    ensures n < radix ==> n % radix == n && n / radix == 0
    ensures n >= radix > 1 ==> n / radix < n
  {
    if n < radix {
      DivMod(radix, 0, n);
    } else if radix > 1 {
      DivModOf(n, radix);
      MulLess(n / radix, 1, radix);
    }
  }

  lemma OneMoreDigit(s: seq<u8>, c: u8, n: nat, radix: nat)
    requires radix > 0 && DigitIs(c, n % radix)
    requires if s == [] then n < radix else Numeral(s, n / radix, radix)
    ensures Numeral(s + [c], n, radix)
  {
    hide DigitIs;
    assert (s + [c])[..|s|] == s;
  }

  lemma {:induction false} ZerosAreNumeral(zeros: nat, radix: nat)
    requires 1 < radix <= 16 && zeros > 0
    ensures Numeral(seq(zeros, _ => 48), 0, radix)
    decreases zeros
  {
    hide DigitIs, Numeral;
    Letters(0);
    DigitWritten(0, false);
    SmallRemainder(0, radix);
    var fewer := seq(zeros - 1, _ => 48);
    if zeros > 1 { ZerosAreNumeral(zeros - 1, radix); }
    OneMoreDigit(fewer, 48, 0, radix);
    assert seq(zeros, _ => 48) == fewer + [48];
  }

  lemma DigitWritten(k: nat, upper: bool)
    requires k < 16
    ensures DigitIs(Ascii(if upper then "0123456789ABCDEF" else "0123456789abcdef")[k], k)
  {
  }

  // ---------- the parser reads numerals, and nothing else ----------

  lemma Letters(k: nat)
    requires k < 16
    ensures Ascii("0123456789abcdef")[k] == if k < 10 then 48 + k else 87 + k
    ensures Ascii("0123456789ABCDEF")[k] == if k < 10 then 48 + k else 55 + k
  {
    assert Ascii("0123456789abcdef") == [48, 49, 50, 51, 52, 53, 54, 55, 56, 57, 97, 98, 99, 100, 101, 102];
    assert Ascii("0123456789ABCDEF") == [48, 49, 50, 51, 52, 53, 54, 55, 56, 57, 65, 66, 67, 68, 69, 70];
  }

  lemma DigitMeans(c: u8, k: nat, radix: nat)
    requires radix == 10 || radix == 16
    ensures Digit(c, radix) == Some(k) <==> k < radix && DigitIs(c, k)
    ensures Digit(c, radix).Some? ==> Digit(c, radix).value < radix
  {
    hide Ascii;
    if k < 16 { Letters(k); }
  }

  lemma {:induction false} DigitsMeans(s: seq<u8>, n: nat, radix: nat)
    requires s != [] && (radix == 10 || radix == 16)
    ensures Digits(s, radix) == Some(n) <==> Numeral(s, n, radix)
    decreases |s|
  {
    hide Digit, DigitIs;
    var front, c := s[..|s| - 1], s[|s| - 1];
    DigitMeans(c, n % radix, radix);
    if |s| == 1 {
      assert Digits(front, radix) == Some(0);
    } else {
      DigitsMeans(front, n / radix, radix);
    }
    if Digits(s, radix) == Some(n) {
      var m, d := Digits(front, radix).value, Digit(c, radix).value;
      assert n == radix * m + d && d < radix;
      assert n / radix == m && n % radix == d;
    }
  }

  lemma {:induction false} DigitsAll(s: seq<u8>, radix: nat)
    ensures Digits(s, radix).Some? ==> forall i :: 0 <= i < |s| ==> Digit(s[i], radix).Some?
    decreases |s|
  {
    hide Digit;
    if s != [] { DigitsAll(s[..|s| - 1], radix); }
  }

  /** A numeral, or one behind a plus sign. */
  predicate Says(s: seq<u8>, n: nat, radix: nat)
    requires radix > 0
  {
    Numeral(s, n, radix) || (|s| > 1 && s[0] == 43 && Numeral(s[1..], n, radix))
  }

  /** The parser reads exactly the numerals that fit into 64 bits. */
  lemma ParseMeans(s: seq<u8>, n: nat, radix: nat)
    requires radix == 10 || radix == 16
    ensures ParseUsize(s, radix) == Some(n) <==> n < TWO_64 && Says(s, n, radix)
  {
    hide Digits, Numeral, Digit;
    if s != [] {
      DigitsMeans(s, n, radix);
      DigitsAll(s, radix);
      NoSign(radix);
      if |s| > 1 { DigitsMeans(s[1..], n, radix); }
    } else {
      NoNumeral(n, radix);
    }
  }

  lemma NoSign(radix: nat)
    ensures Digit(43, radix) == None
  {
  }

  lemma NoNumeral(n: nat, radix: nat)
    requires radix > 0
    ensures !Numeral([], n, radix)
  {
  }

  /** The bytes of a numeral are digits and letters. */
  lemma NumeralBytes(s: seq<u8>, n: nat, radix: nat)
    requires (radix == 10 || radix == 16) && Numeral(s, n, radix)
    ensures s != [] && forall i :: 0 <= i < |s| ==> 48 <= s[i] <= 102
  {
    hide Digits, Numeral, Digit;
    if s == [] { NoNumeral(n, radix); }
    DigitsMeans(s, n, radix);
    DigitsAll(s, radix);
    forall i | 0 <= i < |s|
      ensures 48 <= s[i] <= 102
    {
      DigitByte(s[i], radix);
    }
  }

  lemma DigitByte(c: u8, radix: nat)
    ensures Digit(c, radix).Some? ==> 48 <= c <= 102
  {
  }
}
