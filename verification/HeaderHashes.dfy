/** Where the program's hash, SipHash-2-4 under the key of context.rs, puts the names of the header
    map: computed round by round. */
module HeaderHashes {
  import opened Words
  import opened SipHash
  import opened StaticTable

  /** Where the hash of a name lands: its length and bytes, hashed, modulo the size of the map. */
  function Landing(c: nat, d: nat, name: seq<u8>): (h: nat)
    ensures h < HEADER_MAP_SIZE
  {
    Hash(c, d, HEADER_MAP_KEY, [|name| % 0x100] + name) as int % HEADER_MAP_SIZE
  }

  /** How far behind its hash each name is in the map. */
  function Distance(i: nat): nat {
    if i in DISTANCE_ONE then 1 else if i in DISTANCE_TWO then 2 else 0
  }

  const DISTANCE_ONE: set<nat> := {1, 4, 14, 15, 23, 24, 29, 30, 31, 34, 40, 41, 43, 45, 47}
  const DISTANCE_TWO: set<nat> := {6, 11, 19, 22, 38}

  // ---------- steps of the computation ----------

  /** A number given by its bytes, least significant first. */
  function Number(b0: nat, b1: nat, b2: nat, b3: nat, b4: nat, b5: nat, b6: nat, b7: nat): nat {
    b0 + 0x100 * b1 + 0x1_0000 * b2 + 0x100_0000 * b3 + 0x1_0000_0000 * b4
    + 0x100_0000_0000 * b5 + 0x1_0000_0000_0000 * b6 + 0x100_0000_0000_0000 * b7
  }

  /** The first eight bytes of s are those of w. */
  predicate IsWord(s: seq<u8>, w: bv64)
    requires |s| >= 8
  {
    w as int == Number(s[0], s[1], s[2], s[3], s[4], s[5], s[6], s[7])
  }

  lemma NumberOf(s: seq<u8>)
    requires |s| == 8
    ensures FromLE(s) == Number(s[0], s[1], s[2], s[3], s[4], s[5], s[6], s[7])
  {
    assert s == [s[0]] + ([s[1]] + ([s[2]] + ([s[3]] + ([s[4]] + ([s[5]] + ([s[6]] + ([s[7]] + [])))))));
    FrontByte(s[7], []);
    FrontByte(s[6], s[7..]);
    FrontByte(s[5], s[6..]);
    FrontByte(s[4], s[5..]);
    FrontByte(s[3], s[4..]);
    FrontByte(s[2], s[3..]);
    FrontByte(s[1], s[2..]);
    FrontByte(s[0], s[1..]);
  }

  lemma FrontByte(b: u8, s: seq<u8>)
    ensures FromLE([b] + s) == b + 256 * FromLE(s)
  {
  }

  lemma WordIs(s: seq<u8>, w: bv64)
    requires |s| == 8 && IsWord(s, w)
    ensures Word(s) == w
  {
    hide FromLE, Number;
    NumberOf(s);
    SameWord(w, FromLE(s));
  }

  lemma SameWord(w: bv64, n: nat)
    requires n == w as int
    ensures n as bv64 == w
  {
  }

  /** One word mixed in; b is the state between the two rounds. */
  lemma MixIs(v: V, m: bv64, b: V, next: V)
    requires Round(v.(v3 := Xor(v.v3, m))) == b && Round(b) == next.(v0 := Xor(next.v0, m))
    ensures Mix(2, v, m) == next
  {
    hide Round, Xor;
    var a := v.(v3 := Xor(v.v3, m));
    var c := next.(v0 := Xor(next.v0, m));
    assert Rounds(a, 0) == a && Rounds(a, 1) == b && Rounds(a, 2) == c;
    XorTwice(next.v0, m);
  }

  lemma XorTwice(x: bv64, m: bv64)
    ensures Xor(Xor(x, m), m) == x
  {
  }

  lemma FinishIs(v: V, b: V, c: V, d: V, e: V)
    requires Round(v.(v2 := Xor(v.v2, 0xFF))) == b && Round(b) == c && Round(c) == d && Round(d) == e
    ensures Finish(4, v) == Xor(Xor(Xor(e.v0, e.v1), e.v2), e.v3)
  {
    hide Round, Xor;
    var a := v.(v2 := Xor(v.v2, 0xFF));
    assert Rounds(a, 0) == a && Rounds(a, 1) == b && Rounds(a, 2) == c && Rounds(a, 3) == d && Rounds(a, 4) == e;
  }

  /** The state after the key. */
  const KEYED: V := V(0x362d251f672994f2, 0xe6f5cdbd07eb773c, 0x293b2f1f793f83e6, 0xf6ffdbbe10fb7d22)

  lemma StartIs()
    ensures Start(HEADER_MAP_KEY) == KEYED
  {
    hide Word;
    WordIs(HEADER_MAP_KEY[..8], 0x4542487a175af187);
    WordIs(HEADER_MAP_KEY[8..], 0x829abfdc698f1851);
  }

  lemma AbsorbShort(v: V, msg: seq<u8>)
    requires |msg| < 8
    ensures Absorb(2, v, msg) == v
  {
  }

  // ---------- the hash of a message, by the number of its words ----------

  /** One more word absorbed. */
  lemma AbsorbIs(v: V, msg: seq<u8>, m: bv64)
    requires |msg| >= 8 && IsWord(msg, m)
    ensures Absorb(2, v, msg) == Absorb(2, Mix(2, v, m), msg[8..])
  {
    hide Mix, Word, Number;
    WordIs(msg[..8], m);
  }

  /** The bytes from k on, fewer than eight, and zeros behind them are those of w. */
  predicate IsTail(msg: seq<u8>, k: nat, w: bv64)
    requires k <= |msg| < k + 8
  {
    IsWord(msg[k..] + Zeros(k + 8 - |msg|), w)
  }

  lemma NoTail(msg: seq<u8>)
    ensures IsTail(msg, |msg|, 0)
  {
  }

  /** The end of a hash: the bytes that are left and the length make the last word. */
  lemma HashIs(msg: seq<u8>, k: nat, v: V, tail: bv64, last: bv64)
    requires k % 8 == 0 && k <= |msg| < k + 8
    requires Absorb(2, KEYED, msg) == Absorb(2, v, msg[k..])
    requires IsTail(msg, k, tail) && last == TopWord(|msg|, tail)
    ensures Hash(2, 4, HEADER_MAP_KEY, msg) == Finish(4, Mix(2, v, last))
  {
    hide Mix, Word, Number, Finish, Start, Absorb, TopWord, Zeros;
    var rest := msg[k..];
    assert 8 * (|msg| / 8) == k;
    StartIs();
    AbsorbShort(v, rest);
    WordIs(rest + Zeros(8 - |rest|), tail);
  }

  lemma NoWord(msg: seq<u8>, tail: bv64, last: bv64)
    requires |msg| < 8 && IsTail(msg, 0, tail) && last == TopWord(|msg|, tail)
    ensures Hash(2, 4, HEADER_MAP_KEY, msg) == Finish(4, Mix(2, KEYED, last))
  {
    hide Mix, IsTail, Finish, Absorb, TopWord, Hash;
    assert msg[0..] == msg;
    HashIs(msg, 0, KEYED, tail, last);
  }

  lemma OneWord(msg: seq<u8>, m0: bv64, tail: bv64, last: bv64)
    requires 8 <= |msg| < 16 && IsWord(msg, m0) && IsTail(msg, 8, tail) && last == TopWord(|msg|, tail)
    ensures Hash(2, 4, HEADER_MAP_KEY, msg) == Finish(4, Mix(2, Mix(2, KEYED, m0), last))
  {
    hide Mix, IsWord, IsTail, Finish, Absorb, TopWord, Hash;
    AbsorbIs(KEYED, msg, m0);
    HashIs(msg, 8, Mix(2, KEYED, m0), tail, last);
  }

  lemma TwoWords(msg: seq<u8>, m0: bv64, m1: bv64, tail: bv64, last: bv64)
    requires 16 <= |msg| < 24 && IsWord(msg, m0) && IsWord(msg[8..], m1)
    requires IsTail(msg, 16, tail) && last == TopWord(|msg|, tail)
    ensures Hash(2, 4, HEADER_MAP_KEY, msg) == Finish(4, Mix(2, Mix(2, Mix(2, KEYED, m0), m1), last))
  {
    hide Mix, IsWord, IsTail, Finish, Absorb, TopWord, Hash;
    var v := Mix(2, KEYED, m0);
    AbsorbIs(KEYED, msg, m0);
    AbsorbIs(v, msg[8..], m1);
    assert msg[8..][8..] == msg[16..];
    HashIs(msg, 16, Mix(2, v, m1), tail, last);
  }

  lemma ThreeWords(msg: seq<u8>, m0: bv64, m1: bv64, m2: bv64, tail: bv64, last: bv64)
    requires 24 <= |msg| < 32 && IsWord(msg, m0) && IsWord(msg[8..], m1) && IsWord(msg[16..], m2)
    requires IsTail(msg, 24, tail) && last == TopWord(|msg|, tail)
    ensures Hash(2, 4, HEADER_MAP_KEY, msg) == Finish(4, Mix(2, Mix(2, Mix(2, Mix(2, KEYED, m0), m1), m2), last))
  {
    hide Mix, IsWord, IsTail, Finish, Absorb, TopWord, Hash;
    var v := Mix(2, KEYED, m0);
    var w := Mix(2, v, m1);
    AbsorbIs(KEYED, msg, m0);
    AbsorbIs(v, msg[8..], m1);
    assert msg[8..][8..] == msg[16..];
    AbsorbIs(w, msg[16..], m2);
    assert msg[16..][8..] == msg[24..];
    HashIs(msg, 24, Mix(2, w, m2), tail, last);
  }

  /** What is hashed for a name. */
  function Message(s: string): seq<u8> {
    [|s| % 0x100] + Ascii(s)
  }

  // allow

  lemma Run0()
    ensures Finish(4, Mix(2, KEYED, 0x0600776f6c6c6105)) == 0x2f26abcfe456ebb0
  {
    hide Mix, Finish;
    var s1 := V(0x2ab712cfeb5686c5, 0x316c9e0517f7219a, 0xaa192bc2c7f33a09, 0xd3dfb0a041f30894);
    MixIs(KEYED, 0x0600776f6c6c6105,
          V(0x2600b396071443ce, 0x1a922df4d62879d7, 0xf7c930fdbed02e11, 0xcafd8dbc19429eba), s1);
    FinishIs(s1,
             V(0xd0a645ef5d96412a, 0x698c20732d80ae3a, 0xf16531fc4ddbee8e, 0x62a66bbd572fea39),
             V(0xcacdb9fa896520c3, 0x15e29c2f07760764, 0x43dd7b1c1247a18c, 0x98045fadc542d61a),
             V(0x152747b2e24145cb, 0xe29931fe72f5442a, 0x27c222418f179191, 0xe44775af1611cc48),
             V(0xcedd0bd76122334f, 0xb1d6b48709909080, 0xa2dd337fde094fe0, 0xf2f027e052ed079f));
  }

  lemma Bytes0()
    ensures Message("allow") == [0x05, 0x61, 0x6c, 0x6c, 0x6f, 0x77]
  {
  }

  lemma Lands0()
    ensures Landing(2, 4, Ascii("allow")) == 0
  {
    hide Mix, Finish, Hash, Ascii;
    Run0();
    Bytes0();
    var msg := Message("allow");
    NoWord(msg, 0x0000776f6c6c6105, 0x0600776f6c6c6105);
  }

  // content-range

  lemma Run1()
    ensures Finish(4, Mix(2, Mix(2, KEYED, 0x746e65746e6f630d), 0x0e0065676e61722d)) == 0x3e2de790edd28410
  {
    hide Mix, Finish;
    var s1 := V(0x50e5373422e798b8, 0x648c8bca7e15864b, 0x980366c755b2ebcc, 0xb291dbe34fc0532d);
    MixIs(KEYED, 0x746e65746e6f630d,
          V(0x841b9fac071f1360, 0xf42043efd8277a2f, 0xf9c633055062400a, 0xeba6a028179db3b2), s1);
    var s2 := V(0xef28c03f5836db0e, 0x48ea2e6ac17f04a4, 0x6e93bbf8fd7bc49f, 0xd481a9267e993f8e);
    MixIs(s1, 0x0e0065676e61722d,
          V(0x8b0e23ee0bc6735b, 0x62e592ef60acc84f, 0x8788805e789db287, 0x1644e978007b317b), s2);
    FinishIs(s2,
             V(0x03e8fb387baec619, 0xadfee9e7d868a122, 0x75365a9dc0f51ba5, 0x732088429653807a),
             V(0xb42bdbef891ad45f, 0x6968816bf2731715, 0x977bcea35532010d, 0x22513db26ef6d6d1),
             V(0x000d4e17308e52ea, 0x81ac1db4512a0545, 0xdd981e37c7862f6a, 0x546f1129817edd06),
             V(0xa4e7064f15bcc3ea, 0xf7ca9371da21f095, 0x0a15f48a34171150, 0x671586241658a63f));
  }

  lemma Bytes1()
    ensures Message("content-range") == [
      0x0d, 0x63, 0x6f, 0x6e, 0x74, 0x65, 0x6e, 0x74, 0x2d, 0x72, 0x61, 0x6e, 0x67,
      0x65]
  {
  }

  lemma Lands1()
    ensures Landing(2, 4, Ascii("content-range")) == 0
  {
    hide Mix, Finish, Hash, Ascii;
    Run1();
    Bytes1();
    var msg := Message("content-range");
    OneWord(msg, 0x746e65746e6f630d, 0x000065676e61722d, 0x0e0065676e61722d);
  }

  // authorization

  lemma Run2()
    ensures Finish(4, Mix(2, Mix(2, KEYED, 0x69726f687475610d), 0x0e006e6f6974617a)) == 0xacaf83bd300e8f72
  {
    hide Mix, Finish;
    var s1 := V(0x407e18f4a969cc83, 0x7a4e730b2c8c5ed9, 0x8b8c3b3a16fd974d, 0xb6296e00a335d137);
    MixIs(KEYED, 0x69726f687475610d,
          V(0xeb3393a9df053274, 0xc91c35f3fe21782f, 0xdfc031056d5e3616, 0x044bafee2c0ab1a4), s1);
    var s2 := V(0x94e3dd2ca993921c, 0x1a7f5b8b0ef0a584, 0x4a93bd35f0a0743a, 0x094bf9a43b0d18d6);
    MixIs(s1, 0x0e006e6f6974617a,
          V(0x19d11d450c3f8bb2, 0x64bf96423746a2f4, 0x3f6c4bafb8632a18, 0x24db331afa57f0ec), s2);
    FinishIs(s2,
             V(0x62ffc577e2debd87, 0x2521482abe3ccaae, 0xd7e2428a97f21043, 0xd819aa0778cbf2f6),
             V(0xa7181c8f6a69e8c2, 0xe5ea366bd02f0d82, 0x490c4fca512046f7, 0x2c2455940e695750),
             V(0x5b3da17b95dc055e, 0x1102780c6f41dede, 0x3ab2494040ffce5d, 0x3ddcba4dd9b811cb),
             V(0xc7e0be7277bcf77c, 0xb310ea62154640c7, 0x597e06449bd097ee, 0x8121d1e9c924af27));
  }

  lemma Bytes2()
    ensures Message("authorization") == [
      0x0d, 0x61, 0x75, 0x74, 0x68, 0x6f, 0x72, 0x69, 0x7a, 0x61, 0x74, 0x69, 0x6f,
      0x6e]
  {
  }

  lemma Lands2()
    ensures Landing(2, 4, Ascii("authorization")) == 2
  {
    hide Mix, Finish, Hash, Ascii;
    Run2();
    Bytes2();
    var msg := Message("authorization");
    OneWord(msg, 0x69726f687475610d, 0x00006e6f6974617a, 0x0e006e6f6974617a);
  }

  // cache-control

  lemma Run3()
    ensures Finish(4, Mix(2, Mix(2, KEYED, 0x632d65686361630d), 0x0e006c6f72746e6f)) == 0xd3b26a25a5676ee3
  {
    hide Mix, Finish;
    var s1 := V(0x5de71111f57fb874, 0x92625ed404c38f4b, 0xbc9fae14bc8abed2, 0xca21dde40b152b00);
    MixIs(KEYED, 0x632d65686361630d,
          V(0x70f0aa9e10192aa3, 0xc7e143f3cf2d7a2f, 0xeecc330563a34016, 0xbd0ef458e8f911d0), s1);
    var s2 := V(0xd8ff3f51cc290ce7, 0x9d66e98ac9a7e34e, 0xcbbc692b7a6cacb2, 0x6a29570dc9e41a92);
    MixIs(s1, 0x0e006c6f72746e6f,
          V(0x2b8d6e8160cd3045, 0xe2ae5849aa714d13, 0xc1963a343c554f1d, 0xf3a37ef96ccb1901), s2);
    FinishIs(s2,
             V(0xf8b8fa12d528d5d2, 0x02ede153e93abcd6, 0xae09ea78e13d3221, 0xc31322474be488d3),
             V(0x11bdd9cda199554d, 0xf42a60f0b2f182f0, 0x171b0de9b8a9b302, 0xf52967829d733e05),
             V(0xc051c05c6e013eec, 0x0ffa6be537812453, 0xbaf1b7bf563aa24c, 0xc3bcc37cebcc4631),
             V(0x6354f42fd4835802, 0x0ebc07fdc68fd15c, 0xc30eeb3d1bdf05ed, 0x7d5472caacb4e250));
  }

  lemma Bytes3()
    ensures Message("cache-control") == [
      0x0d, 0x63, 0x61, 0x63, 0x68, 0x65, 0x2d, 0x63, 0x6f, 0x6e, 0x74, 0x72, 0x6f,
      0x6c]
  {
  }

  lemma Lands3()
    ensures Landing(2, 4, Ascii("cache-control")) == 3
  {
    hide Mix, Finish, Hash, Ascii;
    Run3();
    Bytes3();
    var msg := Message("cache-control");
    OneWord(msg, 0x632d65686361630d, 0x00006c6f72746e6f, 0x0e006c6f72746e6f);
  }

  // etag

  lemma Run4()
    ensures Finish(4, Mix(2, KEYED, 0x0500006761746504)) == 0x5115db8e39b5ff73
  {
    hide Mix, Finish;
    var s1 := V(0x7f8cb2e7cb3a4236, 0xe62c258d89fabf1c, 0x81d51fb0182186af, 0x41ed6a08b85d8b2f);
    MixIs(KEYED, 0x0500006761746504,
          V(0x35f787a6100b62cf, 0x65925efccd2065d6, 0xecc12cfcc1d05d19, 0x5b09daabee73be80), s1);
    FinishIs(s1,
             V(0xfeff3337c1092907, 0x765ff6afe87a6d04, 0xd355af16a4cbf302, 0xc254593dd35c1041),
             V(0x761b7113ddc8eafe, 0x88e5157b6dca0b16, 0x5c4b1c032134dd3d, 0x17167c2bff317805),
             V(0x5add5d335763c8e3, 0x077d96856546c715, 0x2b567c4ad1118365, 0xb916515b1de221af),
             V(0x71e2604031b70fba, 0x0ad7e4260d14753f, 0x533bd42bb4f72cb6, 0x791b8bc3b1e1a940));
  }

  lemma Bytes4()
    ensures Message("etag") == [0x04, 0x65, 0x74, 0x61, 0x67]
  {
  }

  lemma Lands4()
    ensures Landing(2, 4, Ascii("etag")) == 3
  {
    hide Mix, Finish, Hash, Ascii;
    Run4();
    Bytes4();
    var msg := Message("etag");
    NoWord(msg, 0x0000006761746504, 0x0500006761746504);
  }

  // date

  lemma Run5()
    ensures Finish(4, Mix(2, KEYED, 0x0500006574616404)) == 0xcf86d4c3637f9645
  {
    hide Mix, Finish;
    var s1 := V(0x1828f5cfab10d8b9, 0xa68280025f2f8444, 0x4b0024f4aa1219a8, 0xfd808896b9762798);
    MixIs(KEYED, 0x0500006574616404,
          V(0x35f57a8ee22261cf, 0x65925efefe2d64d6, 0xdfcc2dfcc1d05d1b, 0xf9ede5633c5abdc2), s1);
    FinishIs(s1,
             V(0xca5671fb02bc3341, 0x4b441e52ce0ad44a, 0x5e51091c372bebc3, 0x55fef3ecaf443183),
             V(0x186a59d7ed8dd905, 0xd9b9d209ed794088, 0x70be6c294aa0c695, 0x51f0a7befa852d6f),
             V(0x401902fb5a6ed1d5, 0xa789cc1b3d4e6674, 0x383bf6be8b142a37, 0x6db40bafe4e273e8),
             V(0x461d1ed603c1c2c1, 0xd56f1dca921bf694, 0xcb6a4ad78411ab2d, 0x979e9d0876b4093d));
  }

  lemma Bytes5()
    ensures Message("date") == [0x04, 0x64, 0x61, 0x74, 0x65]
  {
  }

  lemma Lands5()
    ensures Landing(2, 4, Ascii("date")) == 5
  {
    hide Mix, Finish, Hash, Ascii;
    Run5();
    Bytes5();
    var msg := Message("date");
    NoWord(msg, 0x0000006574616404, 0x0500006574616404);
  }

  // range

  lemma Run6()
    ensures Finish(4, Mix(2, KEYED, 0x060065676e617205)) == 0xa22107ba8eea3404
  {
    hide Mix, Finish;
    var s1 := V(0xe17de8b372e42afa, 0x11799acb2fb4e026, 0x6a5a2dcce0691ce3, 0x62a0329ab2da7d26);
    MixIs(KEYED, 0x060065676e617205,
          V(0x13f89f91162156ce, 0x1a9243fcd82d6ad7, 0xf9cc23fdbed04019, 0x7fa7805d6875cabc), s1);
    FinishIs(s1,
             V(0xa0f9dddee15d7f60, 0x43b93bd443fee10c, 0xd1e162518ea946ef, 0xf74411619d02b37a),
             V(0xfda14f1e7d8426e0, 0xaf76f77bf51e6517, 0x2529e2848cef0580, 0x2b92553fd83f2e7d),
             V(0x78267bf2f86b5f09, 0xb4c013fedf1c55f8, 0x232eb216c4b36ffe, 0x874f1191f58bef74),
             V(0x9373eb248232682e, 0x7133adca504a5e39, 0x1778030bd91717bb, 0x5719425f858515a8));
  }

  lemma Bytes6()
    ensures Message("range") == [0x05, 0x72, 0x61, 0x6e, 0x67, 0x65]
  {
  }

  lemma Lands6()
    ensures Landing(2, 4, Ascii("range")) == 4
  {
    hide Mix, Finish, Hash, Ascii;
    Run6();
    Bytes6();
    var msg := Message("range");
    NoWord(msg, 0x000065676e617205, 0x060065676e617205);
  }

  // www-authenticate

  lemma Run7()
    ensures Finish(4, Mix(2, Mix(2, Mix(2, KEYED, 0x7475612d77777710), 0x74616369746e6568), 0x1100000000000065))
         == 0xf19f936cf59f87c7
  {
    hide Mix, Finish;
    var s1 := V(0xcec6b2b0c4f85fd7, 0x6866ac631a52bba1, 0x0c741ca57df6ef1d, 0x7b1432d77712cfc8);
    MixIs(KEYED, 0x7475612d77777710,
          V(0x806b9a6d081bff6e, 0xf4193836c35f5622, 0xe2be1f08505b3bd3, 0x47b6c54c9a59d5bf), s1);
    var s2 := V(0x5d1ae705c3114266, 0x739da6ed9495d474, 0x6386e57c2c7ef309, 0x0abb7030c1f304e1);
    MixIs(s1, 0x74616369746e6568,
          V(0x29a288976300f5db, 0x8639bac3655b1573, 0x09b2d031fe8aaabd, 0x8a47f2e5ba09bf36), s2);
    var s3 := V(0xf27f8bf6b9eac060, 0xd995d7af2f6c713e, 0xae7f6a125616cd7f, 0xf949266e144d60f2);
    MixIs(s2, 0x1100000000000065,
          V(0x6719ab3abbae7a29, 0x9d644f5deac958fc, 0xdb9b9036e3a7950e, 0xece4f5873d6f947b), s3);
    FinishIs(s3,
             V(0x6afdb66bd6ac3ae0, 0x1239d829048df4df, 0xd1d5191e1ea916c8, 0xf35ce4b131dc0e30),
             V(0xfcbafbd2dbed6638, 0x576e60972dd67e95, 0xb626f2f00b64abd4, 0x7ed12d682f695621),
             V(0x2353f3fec118db8e, 0xbe92560b9c9e6062, 0x00df5015cd33da29, 0xc57e6e11259be98f),
             V(0x0603d7adfd2650d0, 0x02b7d4b65cce7994, 0x848b2fda7184f7c0, 0x71a0bfad25f35943));
  }

  lemma Bytes7()
    ensures Message("www-authenticate") == [
      0x10, 0x77, 0x77, 0x77, 0x2d, 0x61, 0x75, 0x74, 0x68, 0x65, 0x6e, 0x74, 0x69,
      0x63, 0x61, 0x74, 0x65]
  {
  }

  lemma Lands7()
    ensures Landing(2, 4, Ascii("www-authenticate")) == 7
  {
    hide Mix, Finish, Hash, Ascii;
    Run7();
    Bytes7();
    var msg := Message("www-authenticate");
    TwoWords(msg, 0x7475612d77777710, 0x74616369746e6568, 0x0000000000000065, 0x1100000000000065);
  }

  // host

  lemma Run8()
    ensures Finish(4, Mix(2, KEYED, 0x05000074736f6804)) == 0x5b1fa6a9c1395e08
  {
    hide Mix, Finish;
    var s1 := V(0x9cc38b7de704a5ea, 0x9e34b4c86179f389, 0x85565303c8caa082, 0x15bc9156be1dbd97);
    MixIs(KEYED, 0x05000074736f6804,
          V(0x360675abe7185dcf, 0x65925eefff2760d6, 0xdec629fcc1d05d0a, 0x19bf4b06b96083e2), s1);
    FinishIs(s1,
             V(0x52c2f3ba76778bee, 0xdfa6dcdca993500b, 0xfcf808c9477430c3, 0x1a259c530376c365),
             V(0xab598263bbf9bea4, 0x8a457ed6d4ed47d1, 0x94f69435010feac1, 0x6608b39e7a48d770),
             V(0xda484410e1c7a573, 0x220b5340dd0ecde5, 0xb375f96e9545237a, 0x693dc10466ee8954),
             V(0x9c8e4ff571bb5d44, 0xab0f89b6cdadaf90, 0x639e83e7b2ef4763, 0x0f00e30dcfc0ebbf));
  }

  lemma Bytes8()
    ensures Message("host") == [0x04, 0x68, 0x6f, 0x73, 0x74]
  {
  }

  lemma Lands8()
    ensures Landing(2, 4, Ascii("host")) == 8
  {
    hide Mix, Finish, Hash, Ascii;
    Run8();
    Bytes8();
    var msg := Message("host");
    NoWord(msg, 0x00000074736f6804, 0x05000074736f6804);
  }

  // from

  lemma Run9()
    ensures Finish(4, Mix(2, KEYED, 0x0500006d6f726604)) == 0x9520eb76e6087fd9
  {
    hide Mix, Finish;
    var s1 := V(0x40c679de10fa43f1, 0x1219494de5c54949, 0xf1eae9eb658e682f, 0x247a06bbd5250ea3);
    MixIs(KEYED, 0x0500006d6f726604,
          V(0x35fd81aa01115fcf, 0x65925ef6db5a66d6, 0xfabb2ffcc1d05d13, 0x9a81fc679f6982c1), s1);
    FinishIs(s1,
             V(0x079eb2bc86f01634, 0x6d7dcf17c4b8d100, 0x9a4a26ec925b703a, 0xb7d830b6e7d20dd0),
             V(0xae3d97a5ed1a4ba6, 0xeda673f71e81f159, 0xcbb668a51f20d0e6, 0xa013681cd7561930),
             V(0x0f7144978b2a55a2, 0x11fed2612ebb4054, 0x2c2deb61c164b90f, 0xfd8cac5ecb8a2f02),
             V(0x3fc9f240c55c2c95, 0x42a9692e714e09a2, 0x5eddffda24f6caf0, 0xb69d8fc276ec901e));
  }

  lemma Bytes9()
    ensures Message("from") == [0x04, 0x66, 0x72, 0x6f, 0x6d]
  {
  }

  lemma Lands9()
    ensures Landing(2, 4, Ascii("from")) == 9
  {
    hide Mix, Finish, Hash, Ascii;
    Run9();
    Bytes9();
    var msg := Message("from");
    NoWord(msg, 0x0000006d6f726604, 0x0500006d6f726604);
  }

  // accept-ranges

  lemma Run10()
    ensures Finish(4, Mix(2, Mix(2, KEYED, 0x2d7470656363610d), 0x0e007365676e6172)) == 0xc8564f3491b3c72a
  {
    hide Mix, Finish;
    var s1 := V(0x459bfd76b5550c18, 0x75137d88d7781cea, 0xd96dc1f40fc6190e, 0xa5bad1a2c6e71801);
    MixIs(KEYED, 0x2d7470656363610d,
          V(0x1e32b5910e1b6e7a, 0x0d1e2efecf2b782f, 0xeeca3105a95c2d1b, 0x326caa9e7dce8dcf), s1);
    var s2 := V(0xc30139d16256847f, 0xb55c8cbeb6a8ad7b, 0xd89fc5a907ef3d2d, 0x06978837884fa3e5);
    MixIs(s1, 0x0e007365676e6172,
          V(0xb4bcee3582ebb43a, 0x9a67da6c8fde501d, 0x409ffa215a46c4cc, 0x12e5e9b2a58f49c2), s2);
    FinishIs(s2,
             V(0x6ffff7a9ac39adb0, 0xe98b4485132cfa9c, 0x9d8f2908c9015e25, 0xda198cd548334da8),
             V(0xbae4a639b627ae02, 0x945214435b93837d, 0x3169e14aa8c45429, 0x074f35b78cb8c1bd),
             V(0x1ec9cd3a43f6cd26, 0xe4692bb890bb82a6, 0x975199db4677e811, 0x6997553816d76cf5),
             V(0x2a83499034ed3583, 0xf2e5903424b7a4cc, 0x0235e847272ed9f9, 0x12057ed7a6c78f9c));
  }

  lemma Bytes10()
    ensures Message("accept-ranges") == [
      0x0d, 0x61, 0x63, 0x63, 0x65, 0x70, 0x74, 0x2d, 0x72, 0x61, 0x6e, 0x67, 0x65,
      0x73]
  {
  }

  lemma Lands10()
    ensures Landing(2, 4, Ascii("accept-ranges")) == 10
  {
    hide Mix, Finish, Hash, Ascii;
    Run10();
    Bytes10();
    var msg := Message("accept-ranges");
    OneWord(msg, 0x2d7470656363610d, 0x00007365676e6172, 0x0e007365676e6172);
  }

  // proxy-authenticate

  lemma Run11()
    ensures Finish(4, Mix(2, Mix(2, Mix(2, KEYED, 0x612d79786f727012), 0x6369746e65687475), 0x1300000000657461))
         == 0xcf081b345e465869
  {
    hide Mix, Finish;
    var s1 := V(0x6f35287929dcee31, 0xf85d86962dabc1b0, 0xd44aa1cbca76c0b7, 0x888e6c96320d6a7e);
    MixIs(KEYED, 0x612d79786f727012,
          V(0xd2e0ba9b131af9a0, 0xc1e127e3db5a6b2c, 0xfabb220665a32406, 0x1f7e059bcb9680d5), s1);
    var s2 := V(0xea548e27bdf6ca02, 0x70310f93d4a2d595, 0xcee3afa7932968bc, 0x141132fd06c88f09);
    MixIs(s1, 0x6369746e65687475,
          V(0x30529d82a762e434, 0x42067a03304f212c, 0x519a8fac9772257e, 0x8475678403d9fd09), s2);
    var s3 := V(0x5e441645e5e44430, 0xf4746314b02c0481, 0xdf74e34cce790708, 0x723d830f8070eb87);
    MixIs(s2, 0x1300000000657461,
          V(0x79a383a0bd4500f0, 0x9f3359820120635a, 0x620295b5516cc9d4, 0xf88fd44cdbf9e1cc), s3);
    FinishIs(s3,
             V(0x68ce2eddf826fa9d, 0xee3378bb8915d408, 0x656a69bd308d55bb, 0xad5a830dd05cad21),
             V(0x13060b3d04cd571f, 0xe7adb4fd9a61a612, 0x3ca7d63f4adbc386, 0x81f3b248f41f6e38),
             V(0xac0279c94b777087, 0xec2aac27a96f4bda, 0xeae7d3820ac7fbfe, 0x3ee861bf42d6eae8),
             V(0x3d5633f93fa3fdfe, 0x56c03d25a8f55399, 0x6b3cc8caf77a061e, 0xcfa2dd223e6af010));
  }

  lemma Bytes11()
    ensures Message("proxy-authenticate") == [
      0x12, 0x70, 0x72, 0x6f, 0x78, 0x79, 0x2d, 0x61, 0x75, 0x74, 0x68, 0x65, 0x6e,
      0x74, 0x69, 0x63, 0x61, 0x74, 0x65]
  {
  }

  lemma Lands11()
    ensures Landing(2, 4, Ascii("proxy-authenticate")) == 9
  {
    hide Mix, Finish, Hash, Ascii;
    Run11();
    Bytes11();
    var msg := Message("proxy-authenticate");
    TwoWords(msg, 0x612d79786f727012, 0x6369746e65687475, 0x0000000000657461, 0x1300000000657461);
  }

  // content-language

  lemma Run12()
    ensures Finish(4, Mix(2, Mix(2, Mix(2, KEYED, 0x746e65746e6f6310), 0x676175676e616c2d), 0x1100000000000065))
         == 0xce26976ed868396c
  {
    hide Mix, Finish;
    var s1 := V(0x527e2b4a23159f12, 0x648c8ff030fe2648, 0x96f8c6c455b2ef2f, 0x30cae9dd4192209a);
    MixIs(KEYED, 0x746e65746e6f6310,
          V(0x841b9fac07041365, 0xf42043efd8277a22, 0xf9c633085062400a, 0xeba6a3881626b3b7), s1);
    var s2 := V(0x059dd5c4df688a5e, 0xa08383bfcfc90b5b, 0x0b83e717e4325bcf, 0x7a73c019de225f55);
    MixIs(s1, 0x676175676e616c2d,
          V(0xc63211e8801c2787, 0x6fd2011185174858, 0x168105b1159920a4, 0x578b33c509b2644e), s2);
    var s3 := V(0x1fd6a804bd55e4a1, 0x1a89d99de5a5885d, 0x10e239316db97a98, 0x933f980be6f30e4d);
    MixIs(s2, 0x1100000000000065,
          V(0x66200ecd43862b10, 0x0db55b1a93fc3005, 0x50af9ca84d4e47af, 0x4453a2577210f6df), s3);
    FinishIs(s3,
             V(0xdf25a4cc95419d2d, 0xdf5929b2f7c35ac5, 0x689d5863a5750e53, 0x26eef8efe426186b),
             V(0x0468ad68506ececf, 0x0bdb2d63f7c44446, 0x6ff772d72ad4e1db, 0xaada93685a6022b9),
             V(0xd1ed6f74b7d0891a, 0xd8a82b03e12c3cdd, 0x45f0d70290c1aa74, 0x5a199ee17e01be51),
             V(0xd7e7d1dd5b27cd54, 0x9cba628fd3efb84c, 0x2e2ae7a750005c41, 0xab51c39b00a01035));
  }

  lemma Bytes12()
    ensures Message("content-language") == [
      0x10, 0x63, 0x6f, 0x6e, 0x74, 0x65, 0x6e, 0x74, 0x2d, 0x6c, 0x61, 0x6e, 0x67,
      0x75, 0x61, 0x67, 0x65]
  {
  }

  lemma Lands12()
    ensures Landing(2, 4, Ascii("content-language")) == 12
  {
    hide Mix, Finish, Hash, Ascii;
    Run12();
    Bytes12();
    var msg := Message("content-language");
    TwoWords(msg, 0x746e65746e6f6310, 0x676175676e616c2d, 0x0000000000000065, 0x1100000000000065);
  }

  // if-match

  lemma Run13()
    ensures Finish(4, Mix(2, Mix(2, KEYED, 0x6374616d2d666908), 0x0900000000000068)) == 0x8cda71380e10bc2d
  {
    hide Mix, Finish;
    var s1 := V(0x004c95aba30709da, 0x5206f18a1c920c4d, 0x6c17f722b565db0e, 0xe79277ce89a05ee0);
    MixIs(KEYED, 0x6374616d2d666908,
          V(0x732ae09dc0190077, 0xc71e3ff6992e602a, 0xb8cf2900635c3c13, 0xfedebe5c737982cd), s1);
    var s2 := V(0x8006dd392410ee77, 0xcdb7001d73e26998, 0xfe906cf746a0882b, 0xb1ffc73d39e1074d);
    MixIs(s1, 0x0900000000000068,
          V(0xecfdfd78b3e25e39, 0x6e42cfb845d9ed38, 0x3d16f5fde70d3399, 0x06d1cca25367f2a5), s2);
    FinishIs(s2,
             V(0x0fa065e4d589ff34, 0xb81b12dfd8328aa6, 0x5b41d1da5e4ea75f, 0xb5109c60ee470a95),
             V(0x39ef0a570dbb7da8, 0xb1b7082ef4cd5b0c, 0x497e10cdb632f1fe, 0x3667ca57912afbf8),
             V(0xb83b22c4a84bee17, 0x12b6f4966c43293f, 0xf1473c788a89a744, 0xf9ccb67fda7d585e),
             V(0x71fb3fdc084a1dc9, 0x4ad22e9a3cafdc63, 0xd6aff4a2ff74cdcb, 0x615c94dcc581b04c));
  }

  lemma Bytes13()
    ensures Message("if-match") == [0x08, 0x69, 0x66, 0x2d, 0x6d, 0x61, 0x74, 0x63, 0x68]
  {
  }

  lemma Lands13()
    ensures Landing(2, 4, Ascii("if-match")) == 13
  {
    hide Mix, Finish, Hash, Ascii;
    Run13();
    Bytes13();
    var msg := Message("if-match");
    OneWord(msg, 0x6374616d2d666908, 0x0000000000000068, 0x0900000000000068);
  }

  // if-none-match

  lemma Run14()
    ensures Finish(4, Mix(2, Mix(2, KEYED, 0x656e6f6e2d66690d), 0x0e00686374616d2d)) == 0x63900d41978448ed
  {
    hide Mix, Finish;
    var s1 := V(0x4557a48d0538c709, 0x8a465bf9eb6eafef, 0xa738da36ad21717a, 0x8a444a72858670a9);
    MixIs(KEYED, 0x656e6f6e2d66690d,
          V(0x7731eaa0c015fe60, 0xc52035f5992e602f, 0xb8cf290561623610, 0xb965b4c1b094fdfb), s1);
    var s2 := V(0xd09c710b2ca44932, 0x074ae5a7f33093e9, 0xb48a04f15fd41826, 0x091e7c6d86dd09c2);
    MixIs(s1, 0x0e00686374616d2d,
          V(0xfa1484a8522a0b40, 0x4b887086cb031f6c, 0xc46316ae305e3a33, 0x4fe4d529056b26e1), s2);
    FinishIs(s2,
             V(0xe199e49fc75a8238, 0x195631600fbe362a, 0xf45b208d48fc2a33, 0x11e40afab7e2ba98),
             V(0xe3de54cdb5370b2e, 0x6b0b1c2be42c99ab, 0x12bce013431b3f90, 0x6e891c1310d6939d),
             V(0x36ba91ca0f562e9d, 0xb64a1c0fcd38c63d, 0x5e489ce5aeb208a2, 0xa8a29c5dbbc58440),
             V(0x77457761db3bd219, 0x1d8d0550aae793ff, 0x2ec0cef5b5708dc2, 0x2798b185532884c9));
  }

  lemma Bytes14()
    ensures Message("if-none-match") == [
      0x0d, 0x69, 0x66, 0x2d, 0x6e, 0x6f, 0x6e, 0x65, 0x2d, 0x6d, 0x61, 0x74, 0x63,
      0x68]
  {
  }

  lemma Lands14()
    ensures Landing(2, 4, Ascii("if-none-match")) == 13
  {
    hide Mix, Finish, Hash, Ascii;
    Run14();
    Bytes14();
    var msg := Message("if-none-match");
    OneWord(msg, 0x656e6f6e2d66690d, 0x0000686374616d2d, 0x0e00686374616d2d);
  }

  // proxy-authorization

  lemma Run15()
    ensures Finish(4, Mix(2, Mix(2, Mix(2, KEYED, 0x612d79786f727013), 0x617a69726f687475), 0x140000006e6f6974))
         == 0x7cedb239a514635e
  {
    hide Mix, Finish;
    var s1 := V(0x6cd4283b2922ee31, 0xf85d86ff6d8be1b7, 0xd46e81ccca76c0d8, 0x836f609432d36e7f);
    MixIs(KEYED, 0x612d79786f727013,
          V(0xd2e0ba9b131bf9a1, 0xc1e127e3db5a6b2d, 0xfabb220765a32406, 0x1f7e05bbcbb780d4), s1);
    var s2 := V(0x34bf99621d6a72ad, 0x1b3b614d864b4406, 0xd4867c3045f81dbe, 0xad07a0f8c90b6fb4);
    MixIs(s1, 0x617a69726f687475,
          V(0x5614a5f0976ce831, 0x09661b0f730da019, 0x12ca0bc58c71ce3f, 0x9712e297899b048b), s2);
    var s3 := V(0xf6a27e7109aa0050, 0x2b2d0fb71ed140fc, 0xfb839137ba286568, 0xe82c63f1a02f1305);
    MixIs(s2, 0x140000006e6f6974,
          V(0xd12c71003b979828, 0x25acf1e55339ddf4, 0xb8919a52b161678f, 0x98b1029394b236ff), s3);
    FinishIs(s3,
             V(0xa8d996526b221ed8, 0xb80d63d2d2ef3cb7, 0x5abc3cc563e9631b, 0x0810bc007d321512),
             V(0x1cdde18754f06a62, 0x6f982a31e3bebd82, 0xbaa324bb2f69993e, 0xa22360a9534bb3f2),
             V(0x751efe13bdbdfacc, 0x8a6b630da5fba527, 0x71d4b747e5f6bd33, 0xb0f8d6ee5fda7736),
             V(0x57dd71e03271e5b2, 0x1d854dee819384f0, 0x5ceea327b6b963d4, 0x6a5b2d10a04f61c8));
  }

  lemma Bytes15()
    ensures Message("proxy-authorization") == [
      0x13, 0x70, 0x72, 0x6f, 0x78, 0x79, 0x2d, 0x61, 0x75, 0x74, 0x68, 0x6f, 0x72,
      0x69, 0x7a, 0x61, 0x74, 0x69, 0x6f, 0x6e]
  {
  }

  lemma Lands15()
    ensures Landing(2, 4, Ascii("proxy-authorization")) == 14
  {
    hide Mix, Finish, Hash, Ascii;
    Run15();
    Bytes15();
    var msg := Message("proxy-authorization");
    TwoWords(msg, 0x612d79786f727013, 0x617a69726f687475, 0x000000006e6f6974, 0x140000006e6f6974);
  }

  // cookie

  lemma Run16()
    ensures Finish(4, Mix(2, KEYED, 0x0765696b6f6f6306)) == 0x76ca5385da7b8400
  {
    hide Mix, Finish;
    var s1 := V(0x8789fac0ca2be71a, 0x18a6c00ce704126c, 0x65b63bedea90a07b, 0xad02f31f96f0b146);
    MixIs(KEYED, 0x0765696b6f6f6306,
          V(0x1715aa8f041a466c, 0x1b2937f0db277bd0, 0xfac632fabf6b3415, 0xdb097465760f467f), s1);
    FinishIs(s1,
             V(0x92d6b383d0f8b795, 0xc6b033fe41c73c3e, 0xb4e3cc5c8aea553a, 0xad70ab7c49e48342),
             V(0xdbe8320fb1135c8e, 0x9d384de39c0dbc73, 0xca070381c24da793, 0x1c62c381108a7989),
             V(0x7309f08a2471bd71, 0x4fe0262b18cb6afa, 0xcd878bc25705d375, 0x821c9aad8bb5006b),
             V(0x1246d646a5bb68b1, 0xfe8b3cd8f032b929, 0x331d357715d39c1c, 0xa91a8c6c9a21c984));
  }

  lemma Bytes16()
    ensures Message("cookie") == [0x06, 0x63, 0x6f, 0x6f, 0x6b, 0x69, 0x65]
  {
  }

  lemma Lands16()
    ensures Landing(2, 4, Ascii("cookie")) == 16
  {
    hide Mix, Finish, Hash, Ascii;
    Run16();
    Bytes16();
    var msg := Message("cookie");
    NoWord(msg, 0x0065696b6f6f6306, 0x0765696b6f6f6306);
  }

  // accept-language

  lemma Run17()
    ensures Finish(4, Mix(2, Mix(2, Mix(2, KEYED, 0x2d7470656363610f), 0x65676175676e616c), 0x1000000000000000))
         == 0xf391b6d4de7f29b1
  {
    hide Mix, Finish;
    var s1 := V(0x4445fde2b5950c30, 0x75137dd756cf5f04, 0xd8b2821a0fc6194c, 0xb464f936c0e7102b);
    MixIs(KEYED, 0x2d7470656363610f,
          V(0x1e32b5910e1d6e74, 0x0d1e2efecf2b7829, 0xeeca3103a95c2d1b, 0x326caade7d088dc1), s1);
    var s2 := V(0xc5966bf02fdafe21, 0x41650256be01af72, 0x7ce7f7314fb8df9a, 0x097df507672dede7);
    MixIs(s1, 0x65676175676e616c,
          V(0x3e5a29097f61d74a, 0xa25e64c855f9ddee, 0x9ed470298099abc1, 0x84c2e8020d67e9fd), s2);
    var s3 := V(0x50a13707b3f535c8, 0xac8ce2a1e46546bc, 0xb528fd78a09011e1, 0xf4e3a47b5b267256);
    MixIs(s2, 0x1000000000000000,
          V(0x513f38a861fd4342, 0x4e1a15da4466fe23, 0x8f19b3403d17a5bf, 0x33945892fe712f13), s3);
    FinishIs(s3,
             V(0xa6d2775a870e9140, 0x41cca602fe6eae7d, 0x2c446c890b86c719, 0xfc634b5475ef5fbf),
             V(0xe97101f0c768f818, 0x20265b08fd2046e2, 0xd228be5ca506fa6d, 0xaf2ad8cb90048660),
             V(0x1e214626bd028ce0, 0xc2f2422cf49d7e27, 0x0160fbcb4449da86, 0xfbb72b4341e9bfe0),
             V(0x87fb71ef1ae6ea24, 0x8bee0107422bdf13, 0xa4988dbfa66e3dce, 0x5b1c4b8320dc2148));
  }

  lemma Bytes17()
    ensures Message("accept-language") == [
      0x0f, 0x61, 0x63, 0x63, 0x65, 0x70, 0x74, 0x2d, 0x6c, 0x61, 0x6e, 0x67, 0x75,
      0x61, 0x67, 0x65]
  {
  }

  lemma Lands17()
    ensures Landing(2, 4, Ascii("accept-language")) == 17
  {
    hide Mix, Finish, Hash, Ascii, IsTail;
    Run17();
    Bytes17();
    var msg := Message("accept-language");
    NoTail(msg);
    TwoWords(msg, 0x2d7470656363610f, 0x65676175676e616c, 0x0000000000000000, 0x1000000000000000);
  }

  // expires

  lemma Run18()
    ensures Finish(4, Mix(2, Mix(2, KEYED, 0x7365726970786507), 0x0800000000000000)) == 0x0c05e1aa97892a62
  {
    hide Mix, Finish;
    var s1 := V(0xf6e1483c69953893, 0xf97b73d00fccf491, 0x967a642c9cc3d818, 0x8751afd8e638d92d);
    MixIs(KEYED, 0x7365726970786507,
          V(0x7617c4a3df0a0c6d, 0xf72928f2fa5465d1, 0xdbb52cfb536b2b17, 0x78aff840ed2aec3a), s1);
    var s2 := V(0x6db69f68a5a20be2, 0xe159b4adab04e851, 0x3779d8f7481c7d39, 0xa0ebdd51691b5a76);
    MixIs(s1, 0x0800000000000000,
          V(0x03771f624c2dfa20, 0xb8191e1b4efbff1d, 0x6aecc350c3f2d1fb, 0x44dc65458ebcb8be), s2);
    FinishIs(s2,
             V(0x55dbd3873a51cced, 0x93060ce6eed4535f, 0x7ee4a05451eb97bf, 0xbfa6bba820b16a76),
             V(0xae499b9a01cd9e01, 0x1361df2ab1b2869b, 0x15ead461680899b1, 0xc7ea86edb3bd3a6e),
             V(0x0eb90d8ee3568eb9, 0x81c64ee772f8ef93, 0xff191b0fd8238841, 0x10fd38ec9dfde9a4),
             V(0x7f4a4c4e3004bd8e, 0x0de8915fdd36331e, 0xc1de805969ba0625, 0xbf79bce21301a2d7));
  }

  lemma Bytes18()
    ensures Message("expires") == [0x07, 0x65, 0x78, 0x70, 0x69, 0x72, 0x65, 0x73]
  {
  }

  lemma Lands18()
    ensures Landing(2, 4, Ascii("expires")) == 18
  {
    hide Mix, Finish, Hash, Ascii, IsTail;
    Run18();
    Bytes18();
    var msg := Message("expires");
    NoTail(msg);
    OneWord(msg, 0x7365726970786507, 0x0000000000000000, 0x0800000000000000);
  }

  // via

  lemma Run19()
    ensures Finish(4, Mix(2, KEYED, 0x0400000061697603)) == 0x5fc2f16665c1b0f1
  {
    hide Mix, Finish;
    var s1 := V(0xc59161137aa41ebb, 0x2280b561b1f8e903, 0x67bf489c1cfa78a7, 0xeda175035833c3ab);
    MixIs(KEYED, 0x0400000061697603,
          V(0x369a877dff1370d4, 0x64925f1bcd2556dd, 0xecc41ff7c0d05cfe, 0x5f66b972400b807b), s1);
    FinishIs(s1,
             V(0x4d00ed6b9e97e817, 0x148abe936136628d, 0xa6eb9ff1541edde9, 0xf8963dd1aad3e46b),
             V(0xa21ec1b57c24e6c0, 0x5a6bc2a4e2f8c63a, 0x3292aa89d5dba59b, 0x403d92922470acce),
             V(0x3f5fc666530c96ae, 0xc7a4da948d48339c, 0x42273a20f7ae5521, 0x1235162419909eed),
             V(0x22cd141f96d88735, 0x92154dd6521b7e60, 0xf76646ccf0b28198, 0x187cee6351b0c83c));
  }

  lemma Bytes19()
    ensures Message("via") == [0x03, 0x76, 0x69, 0x61]
  {
  }

  lemma Lands19()
    ensures Landing(2, 4, Ascii("via")) == 17
  {
    hide Mix, Finish, Hash, Ascii;
    Run19();
    Bytes19();
    var msg := Message("via");
    NoWord(msg, 0x0000000061697603, 0x0400000061697603);
  }

  // content-length

  lemma Run20()
    ensures Finish(4, Mix(2, Mix(2, KEYED, 0x746e65746e6f630e), 0x0f6874676e656c2d)) == 0x2e922b88c22e26f4
  {
    hide Mix, Finish;
    var s1 := V(0x500034e6220598c2, 0x648c8bf0b1a96616, 0x97af869a55b2ebe9, 0xa534d4714a425f54);
    MixIs(KEYED, 0x746e65746e6f630e,
          V(0x841b9fac0722135f, 0xf42043efd8277a28, 0xf9c633025062400a, 0xeba6a0481740b38d), s1);
    var s2 := V(0x5decfaec1ba4b6a9, 0x0edf1151cd733cda, 0x5f387c0d00d22dcb, 0x979a3971ccc7757b);
    MixIs(s1, 0x0f6874676e656c2d,
          V(0xb5c9016fff307614, 0xca39034c1dd41a4e, 0x794651ab67fefd94, 0xe720551958ec3554), s2);
    FinishIs(s2,
             V(0xb8bb6d3d25ae4172, 0xee9ff60b389748cb, 0x5c26550785b8eb12, 0x8f8c717b8317b51d),
             V(0xf90ecfd2652892eb, 0x4df9a4642ff12b29, 0xc02d981d454ccadd, 0x4b997677915bcbc3),
             V(0x12ca5de36474516f, 0x9cdd60a4a873c942, 0x87252e4b7f4c005d, 0xeb29f098c35be77c),
             V(0x8fbff8715582cb78, 0x210ea1ea2a3c3665, 0xb868310376024a6a, 0x384b4310cb929183));
  }

  lemma Bytes20()
    ensures Message("content-length") == [
      0x0e, 0x63, 0x6f, 0x6e, 0x74, 0x65, 0x6e, 0x74, 0x2d, 0x6c, 0x65, 0x6e, 0x67,
      0x74, 0x68]
  {
  }

  lemma Lands20()
    ensures Landing(2, 4, Ascii("content-length")) == 20
  {
    hide Mix, Finish, Hash, Ascii;
    Run20();
    Bytes20();
    var msg := Message("content-length");
    OneWord(msg, 0x746e65746e6f630e, 0x006874676e656c2d, 0x0f6874676e656c2d);
  }

  // content-disposition

  lemma Run21()
    ensures Finish(4, Mix(2, Mix(2, Mix(2, KEYED, 0x746e65746e6f6313), 0x69736f707369642d), 0x140000006e6f6974))
         == 0x6c82ca4464e05285
  {
    hide Mix, Finish;
    var s1 := V(0x51df2bcc3dbb98a4, 0x648c8f5cfe85c649, 0x989326c555b2ef8e, 0x00aa3d9b505c2b2f);
    MixIs(KEYED, 0x746e65746e6f6313,
          V(0x841b9fac07051362, 0xf42043efd8277a2d, 0xf9c633075062400a, 0xeba6a3e817c7b3b0), s1);
    var s2 := V(0xccb56dc753b0aa75, 0x13c4575c717d0181, 0x49873dbff7fe6761, 0xe2c07c98854a7286);
    MixIs(s1, 0x69736f707369642d,
          V(0x8cc8b972ee561272, 0x601f97b91988fe0c, 0xfd70b10c29ec9ea9, 0xdc6e4438077c0299), s2);
    var s3 := V(0xd357b38b98453131, 0xd269e4d7c25e94ec, 0xa5985aa4dd18fbf4, 0x254158da98780d96);
    MixIs(s2, 0x140000006e6f6974,
          V(0x020cfd74d94b3ab6, 0x3cc2cf5e5b5dd9c5, 0x48410ce1aada0565, 0x2db3e75a6b2ca15c), s3);
    FinishIs(s3,
             V(0xeca6f1251dc8c643, 0xa46403db456e5647, 0xfdcf64f1643513a7, 0x8c49f1c0a1da8626),
             V(0xdf1113f311340a84, 0xa0d1a7a06003a330, 0xb00f81d39b8af45f, 0x320116d1a1bb71ba),
             V(0x65f8e6d2ccdf0fab, 0x42015a9b31c489ea, 0x42981fc72d275038, 0x463179584fc1978c),
             V(0xf0357074935ee362, 0x5bd81f494f2ca0cb, 0xec87b9991572c074, 0x2be81ce0ade0d158));
  }

  lemma Bytes21()
    ensures Message("content-disposition") == [
      0x13, 0x63, 0x6f, 0x6e, 0x74, 0x65, 0x6e, 0x74, 0x2d, 0x64, 0x69, 0x73, 0x70,
      0x6f, 0x73, 0x69, 0x74, 0x69, 0x6f, 0x6e]
  {
  }

  lemma Lands21()
    ensures Landing(2, 4, Ascii("content-disposition")) == 21
  {
    hide Mix, Finish, Hash, Ascii;
    Run21();
    Bytes21();
    var msg := Message("content-disposition");
    TwoWords(msg, 0x746e65746e6f6313, 0x69736f707369642d, 0x000000006e6f6974, 0x140000006e6f6974);
  }

  // if-unmodified-since

  lemma Run22()
    ensures Finish(4, Mix(2, Mix(2, Mix(2, KEYED, 0x6f6d6e752d666913), 0x732d646569666964), 0x1400000065636e69))
         == 0xdbd3c296890f0174
  {
    hide Mix, Finish;
    var s1 := V(0xfd94084fd89df4ad, 0x823c80c9349527ee, 0xed4038af115faabe, 0xa770f1ea90bcaadc);
    MixIs(KEYED, 0x6f6d6e752d666913,
          V(0xe61be5a5c00ff461, 0xc32134ee992e602d, 0xb8cf29076763370b, 0xc8efb805f0a114ba), s1);
    var s2 := V(0xfffad173a63f4f6c, 0x5318344f03abc069, 0x283d54979d84e777, 0x2ef84162a95bdc79);
    MixIs(s1, 0x732d646569666964,
          V(0x6145548148534344, 0xee702e572cb0e4c1, 0xb5093b52b1677dca, 0x9dfc44d60d39c102), s2);
    var s3 := V(0xc72057963f028332, 0xf2d49d6411796481, 0x7704129aeaca6779, 0x9a831c6332c79f48);
    MixIs(s2, 0x1400000065636e69,
          V(0xcc4269982ec0a941, 0x73bfd87e70cf1408, 0x3ba3bf3db8d07bb2, 0xf4191c2c4124e3aa), s3);
    FinishIs(s3,
             V(0x5e6003ed3ccf9147, 0xd6755c0429afb407, 0x9a7de0b73bdfa5d3, 0xd95058beb56e2dc4),
             V(0x91efd16a115e6ab8, 0xa6ad35c5fd4cadbc, 0x824d93171324143a, 0x1294404b49bb04a9),
             V(0xe355b34d911311a7, 0x4234bdc2eeb899cf, 0xf7fba58433078bfb, 0xb87ebd8cdfe984f4),
             V(0x8dc2686ebb9019a1, 0x3b22563cf982307b, 0x7fe3541f62ac8fd8, 0x12d0a8dba9b1a776));
  }

  lemma Bytes22()
    ensures Message("if-unmodified-since") == [
      0x13, 0x69, 0x66, 0x2d, 0x75, 0x6e, 0x6d, 0x6f, 0x64, 0x69, 0x66, 0x69, 0x65,
      0x64, 0x2d, 0x73, 0x69, 0x6e, 0x63, 0x65]
  {
  }

  lemma Lands22()
    ensures Landing(2, 4, Ascii("if-unmodified-since")) == 20
  {
    hide Mix, Finish, Hash, Ascii;
    Run22();
    Bytes22();
    var msg := Message("if-unmodified-since");
    TwoWords(msg, 0x6f6d6e752d666913, 0x732d646569666964, 0x0000000065636e69, 0x1400000065636e69);
  }

  // server

  lemma Run23()
    ensures Finish(4, Mix(2, KEYED, 0x0772657672657306)) == 0x373bfd5b101be356
  {
    hide Mix, Finish;
    var s1 := V(0xebb0e3d7b102baec, 0x406c23f587df9b52, 0x057ed7ca804ba79a, 0x6110201c89d86772);
    MixIs(KEYED, 0x0772657672657306,
          V(0x13159ba7f31c5663, 0x1b1c43edfc316bd0, 0xddd022fabf5e4008, 0xfc2f248b83e8d672), s1);
    FinishIs(s1,
             V(0x7f74d47d99737794, 0x609f380de9cb7dcd, 0xd5ac2d0a0ef2af1d, 0xb8997eb0619ba5db),
             V(0x7434bf83b569f8ec, 0xf63e8463eff1a041, 0x5d15ae6a955b5d6d, 0x300e153e3957e655),
             V(0x3d79942c9359b7b3, 0x341023652fd39e52, 0x6006ebac482301c2, 0x629c88e2eacab40c),
             V(0x0d6ef44af86b8ee3, 0x1c5fe734c2da2d9f, 0xe3d4c655388886fa, 0xc5de28701222c6d0));
  }

  lemma Bytes23()
    ensures Message("server") == [0x06, 0x73, 0x65, 0x72, 0x76, 0x65, 0x72]
  {
  }

  lemma Lands23()
    ensures Landing(2, 4, Ascii("server")) == 22
  {
    hide Mix, Finish, Hash, Ascii;
    Run23();
    Bytes23();
    var msg := Message("server");
    NoWord(msg, 0x0072657672657306, 0x0772657672657306);
  }

  // vary

  lemma Run24()
    ensures Finish(4, Mix(2, KEYED, 0x0500007972617604)) == 0xf8d3354161159957
  {
    hide Mix, Finish;
    var s1 := V(0x6362c1c76c6c7e4b, 0xffc7966066efb79f, 0x72c01760e7d7174a, 0x05728c9886428a10);
    MixIs(KEYED, 0x0500007972617604,
          V(0x361174aaee226fcf, 0x65925ee2fc2d56d6, 0xddcc1ffcc1d05d07, 0x398b6b45705ab042), s1);
    FinishIs(s1,
             V(0xc8065ba64733fcde, 0xa3ecb3ac07ec481b, 0x93c96bd70a18f8f3, 0x7f7ada92d1cd699a),
             V(0x18f6dc9e1e6f2d49, 0x0f955a5fc300681c, 0xa209931110cad619, 0xec60931da096179b),
             V(0xfee71c1dcf8738d1, 0x8f0a2c14b4e205c4, 0x9dcd024b1231f4cc, 0x29f3c37df5049621),
             V(0x89266f631f08eb50, 0x2d692dd492e1aa86, 0xcc083a619034a477, 0x90944d977cc87cf6));
  }

  lemma Bytes24()
    ensures Message("vary") == [0x04, 0x76, 0x61, 0x72, 0x79]
  {
  }

  lemma Lands24()
    ensures Landing(2, 4, Ascii("vary")) == 23
  {
    hide Mix, Finish, Hash, Ascii;
    Run24();
    Bytes24();
    var msg := Message("vary");
    NoWord(msg, 0x0000007972617604, 0x0500007972617604);
  }

  // strict-transport-security

  lemma Run25()
    ensures Finish(4, Mix(2,
      Mix(2, Mix(2, Mix(2, KEYED, 0x2d74636972747319), 0x726f70736e617274), 0x6972756365732d74),
      0x1a00000000007974))
         == 0x3eece1e911f5c609
  {
    hide Mix, Finish;
    var s1 := V(0x137858587b163b72, 0x496a22c0dcee3eda, 0x522bc02f6157e63f, 0xb3f6189e934b9219);
    MixIs(KEYED, 0x2d74636972747319,
          V(0x2b2691a7f3183c86, 0x0d1e39f2fc206a3b, 0xddc12311a95c3a17, 0x841c2f0ec64fbeb6), s1);
    var s2 := V(0x09a2cda7e12f5ba6, 0x85cb1f1d17cacd91, 0xf718e15e6aa48529, 0x7a5468902ab6c2dc);
    MixIs(s1, 0x726f70736e617274,
          V(0xd32d4e841bd1824e, 0xed76b61f98a3cb79, 0xfe61fa0d2c7f89a1, 0x55da9364fd7ee754), s2);
    var s3 := V(0xe32ad5575e63ccc8, 0x1360bb8a3486b478, 0xb9d7c144189df5e5, 0x0cef526b21376ea2);
    MixIs(s2, 0x6972756365732d74,
          V(0x10c7d9cbe53054bb, 0x6ab60f1f68af5743, 0x5bb28e5ff6cd4d8f, 0x024d61871bd2ad0d), s3);
    var s4 := V(0x4e664a042d0dc570, 0xd724934d8e721f98, 0xf774a05624b57e6a, 0x03f96070851b528d);
    MixIs(s3, 0x1a00000000007974,
          V(0x1596b3d9248eac35, 0x1e2362eb78635312, 0x7e3a90e7b2c1ea20, 0x469373ba4e1ef9b3), s4);
    FinishIs(s4,
             V(0x569e6ae620e8b02c, 0x6a6e9c7f5d84bec8, 0xa25dd10eb3516d66, 0xed21015c7b9bd3fc),
             V(0x0c9018e5be1eb3a8, 0x7baa6c29dfd3801e, 0x18a1a51ba201bf41, 0x328fbad0366f77fd),
             V(0x8fd39d4b37c68ac0, 0x6d1ac5023f04b88e, 0xc66333f110f11ee1, 0xbf466ccb81f8b6ed),
             V(0x602d649320f2ccd5, 0x62ac05df691f2c27, 0x74c464bb29f7c66a, 0x48a9e41e71efe091));
  }

  lemma Bytes25()
    ensures Message("strict-transport-security") == [
      0x19, 0x73, 0x74, 0x72, 0x69, 0x63, 0x74, 0x2d, 0x74, 0x72, 0x61, 0x6e, 0x73,
      0x70, 0x6f, 0x72, 0x74, 0x2d, 0x73, 0x65, 0x63, 0x75, 0x72, 0x69, 0x74, 0x79]
  {
  }

  lemma Lands25()
    ensures Landing(2, 4, Ascii("strict-transport-security")) == 25
  {
    hide Mix, Finish, Hash, Ascii;
    Run25();
    Bytes25();
    var msg := Message("strict-transport-security");
    ThreeWords(msg,
      0x2d74636972747319, 0x726f70736e617274, 0x6972756365732d74, 0x0000000000007974, 0x1a00000000007974);
  }

  // accept-charset

  lemma Run26()
    ensures Finish(4, Mix(2, Mix(2, KEYED, 0x2d7470656363610e), 0x0f74657372616863)) == 0xd003064bde5ef89a
  {
    hide Mix, Finish;
    var s1 := V(0x4466f7a2b5fb0c48, 0x75137df216a97f07, 0xd8d4a2190fc6196b, 0x4c47ef36c0691452);
    MixIs(KEYED, 0x2d7470656363610e,
          V(0x1e32b5910e1e6e75, 0x0d1e2efecf2b7828, 0xeeca3102a95c2d1b, 0x326caafe7d2b8dc0), s1);
    var s2 := V(0xced3b0c07d8778e0, 0xdf32cdf942426c94, 0x61d87b5d591d54fe, 0xac65c13b395d7c05);
    MixIs(s1, 0x0f74657372616863,
          V(0x62f229a6777a4c43, 0x9c4fa5286ec95601, 0xa512fb89f2cc63a0, 0xa825965ca28885f0), s2);
    FinishIs(s2,
             V(0x8eceeb3a9c85fb1c, 0xa814773c79f3a1ea, 0x84d64e9805f7938a, 0x367324d510fc1bbc),
             V(0xb61600974432fbac, 0xa9dca43fe9310743, 0x7938774a734e60b6, 0xc437a96462810820),
             V(0xc178451f3de251b8, 0xbb0761870cf27640, 0xe35be0aa08e57a9f, 0x8483f8eaa1d0d330),
             V(0xea0a403cf6066ff2, 0x765f28f50fe23ef9, 0xaed31e67f82f20cc, 0xe28570e5df95895d));
  }

  lemma Bytes26()
    ensures Message("accept-charset") == [
      0x0e, 0x61, 0x63, 0x63, 0x65, 0x70, 0x74, 0x2d, 0x63, 0x68, 0x61, 0x72, 0x73,
      0x65, 0x74]
  {
  }

  lemma Lands26()
    ensures Landing(2, 4, Ascii("accept-charset")) == 26
  {
    hide Mix, Finish, Hash, Ascii;
    Run26();
    Bytes26();
    var msg := Message("accept-charset");
    OneWord(msg, 0x2d7470656363610e, 0x0074657372616863, 0x0f74657372616863);
  }

  // age

  lemma Run27()
    ensures Finish(4, Mix(2, KEYED, 0x0400000065676103)) == 0xbfec6ed21dc1b92b
  {
    hide Mix, Finish;
    var s1 := V(0xf89609e930bdd66b, 0x811e890e380a8403, 0x1e4d259ca04295e0, 0xba615c50ce79de41);
    MixIs(KEYED, 0x0400000065676103,
          V(0x369a8b70101d45d4, 0x64925f1bd12f79dd, 0xf0ce30f7c0d05cfe, 0xdea4d43a4f05b57b), s1);
    FinishIs(s1,
             V(0xedc6aa032ab25bf8, 0x2aafa773f39fcc87, 0xa7049dad8143d7e3, 0x1f50b5ba0a82c431),
             V(0x92418264686dd4bb, 0xece44de9e9dcb00e, 0x7389693eb2ed826c, 0xaee87c9400e3a950),
             V(0xb13069fa99a755a2, 0xc3e15bdecab76820, 0x781c8511190ad348, 0x171339ca332c891e),
             V(0x1b444bba3a3b114e, 0xd486c9df9eeebef0, 0xd5920224ed99db6a, 0xa5bcee93548dcdff));
  }

  lemma Bytes27()
    ensures Message("age") == [0x03, 0x61, 0x67, 0x65]
  {
  }

  lemma Lands27()
    ensures Landing(2, 4, Ascii("age")) == 27
  {
    hide Mix, Finish, Hash, Ascii;
    Run27();
    Bytes27();
    var msg := Message("age");
    NoWord(msg, 0x0000000065676103, 0x0400000065676103);
  }

  // :status

  lemma Run28()
    ensures Finish(4, Mix(2, Mix(2, KEYED, 0x7375746174733a07), 0x0800000000000000)) == 0x814d864f20352c2c
  {
    hide Mix, Finish;
    var s1 := V(0x49ce869d34a09d73, 0x136735495a207fd9, 0x8fbafdf65fce9d3d, 0xe300c3a9fa632c07);
    MixIs(KEYED, 0x7375746174733a07,
          V(0x702fc6a4b805415d, 0xf71932fafe5b12d1, 0xdfba5bfb535b311f, 0x3efc9aed6825620a), s1);
    var s2 := V(0xf57b915a8d291a58, 0xebe788f65701a7ff, 0xa9c84e1310202613, 0x871e5654af79861e);
    MixIs(s1, 0x0800000000000000,
          V(0x47d3590fd36bde2a, 0x171d5036a52d7f5d, 0xdb6c086436585242, 0x3fbd9fcb9bfcfc6d), s2);
    FinishIs(s2,
             V(0x4adccd761aea4464, 0xe005d4b2ee38ccce, 0x906eec3541647518, 0x291bfd9358669225),
             V(0x4d3cc2e036d0d04f, 0xb623c8c330e0f486, 0xaa85d46f49ffe9b6, 0x78fdbf25f2185379),
             V(0x0458266272c1d175, 0x46827316911bbbb1, 0xb5394f409dfc8154, 0x35f5ca4ac89245b9),
             V(0x25435e3f6e128c71, 0x79538db290d66473, 0xdb3a6d03efe764e5, 0x066738c13116a0cb));
  }

  lemma Bytes28()
    ensures Message(":status") == [0x07, 0x3a, 0x73, 0x74, 0x61, 0x74, 0x75, 0x73]
  {
  }

  lemma Lands28()
    ensures Landing(2, 4, Ascii(":status")) == 28
  {
    hide Mix, Finish, Hash, Ascii, IsTail;
    Run28();
    Bytes28();
    var msg := Message(":status");
    NoTail(msg);
    OneWord(msg, 0x7375746174733a07, 0x0000000000000000, 0x0800000000000000);
  }

  // link

  lemma Run29()
    ensures Finish(4, Mix(2, KEYED, 0x0500006b6e696c04)) == 0xd6f5e6789d8e8d9c
  {
    hide Mix, Finish;
    var s1 := V(0xc21a24d2dda0574a, 0x0dedabb219f84bba, 0x0dd7eb2d84ef48f8, 0x059922d2caf46005);
    MixIs(KEYED, 0x0500006b6e696c04,
          V(0x36038095041a59cf, 0x65925ef0d8256cd6, 0xf9c425fcc1d05d15, 0xbadf5e79da628401), s1);
    FinishIs(s1,
             V(0x293c67f8ffee7e19, 0x5f955c638ba14026, 0x4ed38ac578e2a1bc, 0xb7b99b2d4d484a61),
             V(0x293026fa151d2000, 0x43bb9c0d822c2751, 0x69b661ea29eadb1b, 0x3e61af91618e940d),
             V(0x9ed2b8468c601450, 0x2106a3fb4150e09a, 0x9f1cde4ec78284bd, 0x807156cca540e57e),
             V(0x16f385464997468b, 0xe3e3cac05ff3cc49, 0x3e671b058b346987, 0x1d82b2fb00de6ed9));
  }

  lemma Bytes29()
    ensures Message("link") == [0x04, 0x6c, 0x69, 0x6e, 0x6b]
  {
  }

  lemma Lands29()
    ensures Landing(2, 4, Ascii("link")) == 28
  {
    hide Mix, Finish, Hash, Ascii;
    Run29();
    Bytes29();
    var msg := Message("link");
    NoWord(msg, 0x0000006b6e696c04, 0x0500006b6e696c04);
  }

  // location

  lemma Run30()
    ensures Finish(4, Mix(2, Mix(2, KEYED, 0x6f697461636f6c08), 0x090000000000006e)) == 0xe5599e01dad452bd
  {
    hide Mix, Finish;
    var s1 := V(0x3e57619a2fbc8735, 0xf3b7ed639733b491, 0xfae3c6be9959e22f, 0xbceba4a4999f3469);
    MixIs(KEYED, 0x6f697461636f6c08,
          V(0xdc23b9991b1bff62, 0xc32532facf276f2a, 0xeec626006767311f, 0x717c06b88bd65eb7), s1);
    var s2 := V(0xb376c5ce90289a15, 0x857a5bcfe41a5939, 0x34fe8f94d38eb877, 0x7001551aeffbbfb2);
    MixIs(s1, 0x090000000000006e,
          V(0xdb5c2ec2390df2da, 0xf845c7bae83a84a0, 0xe35b1be68072a77e, 0x84dcf11642af7fa4), s2);
    FinishIs(s2,
             V(0x6627fea2b52929d9, 0xa2b2bf068532db0a, 0x02f03c1b1888c1cd, 0x0ca879a3b2571578),
             V(0xb0970ccce8829996, 0xb4cde0b48d77998e, 0x2c1d27fa6ed322ce, 0x4dacf837952c5ef6),
             V(0xf7f7e842c26eb9e9, 0xab6391f641b0d565, 0x8acb6781533c9c61, 0x543c497b4f7e865f),
             V(0x9a9c8ed0c83ff135, 0xd4735e6db52bfe29, 0xc16e5ce2b06d630b, 0x6ad8125e17ad3eaa));
  }

  lemma Bytes30()
    ensures Message("location") == [0x08, 0x6c, 0x6f, 0x63, 0x61, 0x74, 0x69, 0x6f, 0x6e]
  {
  }

  lemma Lands30()
    ensures Landing(2, 4, Ascii("location")) == 29
  {
    hide Mix, Finish, Hash, Ascii;
    Run30();
    Bytes30();
    var msg := Message("location");
    OneWord(msg, 0x6f697461636f6c08, 0x000000000000006e, 0x090000000000006e);
  }

  // user-agent

  lemma Run31()
    ensures Finish(4, Mix(2, Mix(2, KEYED, 0x67612d726573750a), 0x0b00000000746e65)) == 0x780ee09aaa8b668e
  {
    hide Mix, Finish;
    var s1 := V(0x99aca3de58f5e36a, 0x0596ff6f2729319c, 0xd56303d7c13780c0, 0xf3bd6b1b8123ba65);
    MixIs(KEYED, 0x67612d726573750a,
          V(0xbb2b5c920412106c, 0xfb2d7be9d15b55d4, 0xf0ba1cfe5f6f780c, 0xb7578171b61b92a6), s1);
    var s2 := V(0x6281c0a7c808206d, 0x5a074f6d0878f956, 0x5dfa4a13142866ea, 0xdf25f08e1b11b568);
    MixIs(s1, 0x0b00000000746e65,
          V(0x255b04ab35d34fca, 0x819ffac2c3d36b28, 0xe8bbea740eceb69b, 0xd1c9d55eba67e8b7), s2);
    FinishIs(s2,
             V(0x9e2f3b7456dbd46c, 0xf0b374eb5be344c9, 0xfee5ee009284ebbc, 0xa83c712cddc261a8),
             V(0x88cd9c24a0d295b7, 0x31e58e1d042ab478, 0x4a6d748787a23a51, 0xd52fa1d80bc85467),
             V(0x634267c781c085d8, 0x3e8445c01dfacc2a, 0x85dcdacb2b0da124, 0xd1ba866cf3374d7b),
             V(0x71b6e411f505ecac, 0xdd67830ccf27568c, 0xe483047181160f70, 0x305c83f611bfd3de));
  }

  lemma Bytes31()
    ensures Message("user-agent") == [0x0a, 0x75, 0x73, 0x65, 0x72, 0x2d, 0x61, 0x67, 0x65, 0x6e, 0x74]
  {
  }

  lemma Lands31()
    ensures Landing(2, 4, Ascii("user-agent")) == 30
  {
    hide Mix, Finish, Hash, Ascii;
    Run31();
    Bytes31();
    var msg := Message("user-agent");
    OneWord(msg, 0x67612d726573750a, 0x0000000000746e65, 0x0b00000000746e65);
  }

  // referer

  lemma Run32()
    ensures Finish(4, Mix(2, Mix(2, KEYED, 0x7265726566657207), 0x0800000000000000)) == 0x24362ea36b6efc50
  {
    hide Mix, Finish;
    var s1 := V(0x9009488a580f9efa, 0x8eccc50fd64b9a68, 0x41bd02cefde30323, 0x5476992e13e86f05);
    MixIs(KEYED, 0x7265726566657207,
          V(0x7323ba92fe1b0a6d, 0xf62928fed0316ad1, 0xf1d023fb526b2b1b, 0xbfbfa5900c3b8bb8), s1);
    var s2 := V(0x9345b7f6a2df4741, 0xdb613f601d81038a, 0x8b0bb6de01632096, 0x2571dcdd2b08861d);
    MixIs(s1, 0x0800000000000000,
          V(0x3578c1779da43bf8, 0xca0d297c3f96960c, 0x6ee19ae324ab9350, 0x37d718b25664d849), s2);
    FinishIs(s2,
             V(0x2d01037f191d7b4d, 0x100548802f322ab8, 0x0c7cb82df9c888a2, 0x3b744daf67f0ef5a),
             V(0x52ae0832cbe99887, 0x403549c726d9342d, 0x6ed21c01dc0753f6, 0x171fd45b5ae8d34b),
             V(0x446d776a789e8257, 0xab880d0ec253fc44, 0x0b378bf3c1cda580, 0x12d1c00c7354b702),
             V(0x18f7bdf07215d2cc, 0xb43b22c6ad4894c4, 0x7a9d486c0c5da833, 0xf267f9f9b86e126b));
  }

  lemma Bytes32()
    ensures Message("referer") == [0x07, 0x72, 0x65, 0x66, 0x65, 0x72, 0x65, 0x72]
  {
  }

  lemma Lands32()
    ensures Landing(2, 4, Ascii("referer")) == 32
  {
    hide Mix, Finish, Hash, Ascii, IsTail;
    Run32();
    Bytes32();
    var msg := Message("referer");
    NoTail(msg);
    OneWord(msg, 0x7265726566657207, 0x0000000000000000, 0x0800000000000000);
  }

  // if-modified-since

  lemma Run33()
    ensures Finish(4, Mix(2, Mix(2, Mix(2, KEYED, 0x69646f6d2d666911), 0x6e69732d64656966), 0x1200000000006563))
         == 0x2bdaea9e52c73ac1
  {
    hide Mix, Finish;
    var s1 := V(0xab654437b61edfbb, 0xb5d6feb074463173, 0x330ed49c52b5d438, 0xd91dcea859b5aeb0);
    MixIs(KEYED, 0x69646f6d2d666911,
          V(0xeb1aea9dc011fa5e, 0xc92e35f6992e6023, 0xb8cf29096d6c3613, 0x26eeb77d305e7ae5), s1);
    var s2 := V(0x2df8957ea6ffb0ca, 0x8d7e869ad1a7ff8c, 0x847d98262fe88008, 0x6cf016318d803893);
    MixIs(s1, 0x6e69732d64656966,
          V(0x816bc11fb88c6e62, 0x31ac0614b3fb7e76, 0x7cd203a2a96dde82, 0x7f412b1ad7c68eb7), s2);
    var s3 := V(0xb3e021fbea09a94f, 0xbab6f973250db8ca, 0x926be4dd67cab5ea, 0xe5cf36a450b61cab);
    MixIs(s2, 0x1200000000006563,
          V(0x8e03d42e9c0fbf21, 0xe34afa29074c28b9, 0x44befff16f11f485, 0xf4ffc73afd0d14a5), s3);
    FinishIs(s3,
             V(0x5db6ad5112c24f7e, 0xd669eb4c1a10647d, 0x708f070f29f49b50, 0x3b422837932b9c97),
             V(0xb0b9706855d7a542, 0x82a40b9fcf11538f, 0xdd7d411db51a4b25, 0x3d1d4689c167d995),
             V(0x80fc3f91e27495af, 0xc71d10a394104962, 0x851b2d3fccc90d91, 0x58e9dd72d69f17c7),
             V(0x79fcbb3efcc8cde6, 0x8d7cd23b2cf57950, 0x2310ad4ac8122d6a, 0xfc4a2ed14ae8a31d));
  }

  lemma Bytes33()
    ensures Message("if-modified-since") == [
      0x11, 0x69, 0x66, 0x2d, 0x6d, 0x6f, 0x64, 0x69, 0x66, 0x69, 0x65, 0x64, 0x2d,
      0x73, 0x69, 0x6e, 0x63, 0x65]
  {
  }

  lemma Lands33()
    ensures Landing(2, 4, Ascii("if-modified-since")) == 33
  {
    hide Mix, Finish, Hash, Ascii;
    Run33();
    Bytes33();
    var msg := Message("if-modified-since");
    TwoWords(msg, 0x69646f6d2d666911, 0x6e69732d64656966, 0x0000000000006563, 0x1200000000006563);
  }

  // refresh

  lemma Run34()
    ensures Finish(4, Mix(2, Mix(2, KEYED, 0x6873657266657207), 0x0800000000000000)) == 0x26aea77b3687a3f1
  {
    hide Mix, Finish;
    var s1 := V(0xe76998ec2ce4a10a, 0x73b868053a0903d6, 0x9e67b353d0afae29, 0xc229b5a2ba99cadf);
    MixIs(KEYED, 0x6873657266657207,
          V(0xe820a7a3fe1b0063, 0xc81f43e9d0316ad1, 0xf1d023fb6c5d400c, 0x869cb8a24ef42110), s1);
    var s2 := V(0x37bad5a6db553f9e, 0xa96ded70a41ecc6a, 0x1fb380e481f13d88, 0x08ee7e4383a6f9e4);
    MixIs(s1, 0x0800000000000000,
          V(0x4421774f9cb8b412, 0xf1d49d8804ce4fda, 0xd1e0e39fbeb410a6, 0x09c94599f8831268), s2);
    FinishIs(s2,
             V(0xd6568897dda502cc, 0x2a019b4e1edb298d, 0xac9190808528d6bc, 0x478907102b0fde83),
             V(0xef8ae8f86f14169b, 0xe73144ac5bd8583b, 0x49ea3e58274c77cf, 0x7c673f8639ca77cc),
             V(0xc4c3b2eaed96c1a0, 0x89c4a7680763fd98, 0x230201cbc47b24be, 0x464169b89209fb48),
             V(0xf5f6b8c5fc55c099, 0xf6d5d0d1bdcf7acc, 0xe1cece0643a8c642, 0xc443016934b5dfe6));
  }

  lemma Bytes34()
    ensures Message("refresh") == [0x07, 0x72, 0x65, 0x66, 0x72, 0x65, 0x73, 0x68]
  {
  }

  lemma Lands34()
    ensures Landing(2, 4, Ascii("refresh")) == 33
  {
    hide Mix, Finish, Hash, Ascii, IsTail;
    Run34();
    Bytes34();
    var msg := Message("refresh");
    NoTail(msg);
    OneWord(msg, 0x6873657266657207, 0x0000000000000000, 0x0800000000000000);
  }

  // content-encoding

  lemma Run35()
    ensures Finish(4, Mix(2, Mix(2, Mix(2, KEYED, 0x746e65746e6f6310), 0x6e69646f636e652d), 0x1100000000000067))
         == 0x68a88f31c18a4673
  {
    hide Mix, Finish;
    var s1 := V(0x527e2b4a23159f12, 0x648c8ff030fe2648, 0x96f8c6c455b2ef2f, 0x30cae9dd4192209a);
    MixIs(KEYED, 0x746e65746e6f6310,
          V(0x841b9fac07041365, 0xf42043efd8277a22, 0xf9c633085062400a, 0xeba6a3881626b3b7), s1);
    var s2 := V(0x22c067814fa6fe7b, 0x253206bbf95fec6b, 0x514706599ba8f6e8, 0x2e76366bc5df5793);
    MixIs(s1, 0x6e69646f636e652d,
          V(0xcc423be4f423257f, 0x66da30299a1fb358, 0x0989feb11c91119c, 0x1d0598e9bc8c20b1), s2);
    var s3 := V(0x4323f6ce8bd1a83d, 0xf0d094941d8c3af0, 0xd684b89823e37244, 0x203f325d7a288c72);
    MixIs(s2, 0x1100000000000067,
          V(0xefdde4007e6edfe7, 0xb5cf24cb0a93d356, 0x1613dd1c97e24ddc, 0xcc9b2b8e4b3a0538), s3);
    FinishIs(s3,
             V(0x6dfc740a466e6a74, 0x098fafcf3661bea8, 0xcc0ffc641829f3c8, 0x765e3b31a436f9a6),
             V(0xf62fbcbfbd52bf09, 0x4ec96aa1573d1170, 0x0766159bc4e3fcab, 0x8247046cdb5d94fb),
             V(0xa25191ce79b33b42, 0xe8574acce5a3b81c, 0x56e36b46f35a278f, 0x88f7068c0582837a),
             V(0x38ad67af064f0099, 0xc395e2a8fd9adebf, 0x2132195d43cbb202, 0xb2a2136b79942a57));
  }

  lemma Bytes35()
    ensures Message("content-encoding") == [
      0x10, 0x63, 0x6f, 0x6e, 0x74, 0x65, 0x6e, 0x74, 0x2d, 0x65, 0x6e, 0x63, 0x6f,
      0x64, 0x69, 0x6e, 0x67]
  {
  }

  lemma Lands35()
    ensures Landing(2, 4, Ascii("content-encoding")) == 35
  {
    hide Mix, Finish, Hash, Ascii;
    Run35();
    Bytes35();
    var msg := Message("content-encoding");
    TwoWords(msg, 0x746e65746e6f6310, 0x6e69646f636e652d, 0x0000000000000067, 0x1100000000000067);
  }

  // retry-after

  lemma Run36()
    ensures Finish(4, Mix(2, Mix(2, KEYED, 0x612d79727465720b), 0x0c00000072657466)) == 0x242c58c3ba545994
  {
    hide Mix, Finish;
    var s1 := V(0xd045725487efcb8f, 0xa0101f4b2115eed8, 0x94708e4d0c87996e, 0xa263d17f0d72da71);
    MixIs(KEYED, 0x612d79727465720b,
          V(0xd2d6c1a3f016f7b9, 0xc1e127e9fe316ad5, 0xdfd023ff65a3240c, 0x7c6c9f236bba8f8f), s1);
    var s2 := V(0x38a3575e9e7def53, 0x2cafc8a41b2ea03a, 0xd0654a0fbd6d292b, 0x1c6978d69bccda8c);
    MixIs(s1, 0x0c00000072657466,
          V(0x3cb0db4295de7b85, 0x5deb7c34fcb71293, 0xa07df5eab6915589, 0x27d46a5fa90c0ee1), s2);
    FinishIs(s2,
             V(0x4dc4e8b7e909380b, 0xcfd8bd1a52d4f6f7, 0xc6e5ce788916664d, 0x68949e74e83bbb00),
             V(0xececb3d8e7efefab, 0xe6a81677bba0ec3b, 0x1652f84639b95c76, 0x7635f991dcd9ce7b),
             V(0x18aa08e8ac7d2714, 0x27aa52d39acd7090, 0xd4aad2245de32efc, 0xb89115e334f38431),
             V(0xe0237498573b6778, 0xc681c25c5a8d5262, 0x7c2f467e974a10ed, 0x7ea1a87920a87c63));
  }

  lemma Bytes36()
    ensures Message("retry-after") == [0x0b, 0x72, 0x65, 0x74, 0x72, 0x79, 0x2d, 0x61, 0x66, 0x74, 0x65, 0x72]
  {
  }

  lemma Lands36()
    ensures Landing(2, 4, Ascii("retry-after")) == 36
  {
    hide Mix, Finish, Hash, Ascii;
    Run36();
    Bytes36();
    var msg := Message("retry-after");
    OneWord(msg, 0x612d79727465720b, 0x0000000072657466, 0x0c00000072657466);
  }

  // content-location

  lemma Run37()
    ensures Finish(4, Mix(2, Mix(2, Mix(2, KEYED, 0x746e65746e6f6310), 0x6f697461636f6c2d), 0x110000000000006e))
         == 0x24baaf3a4ff34285
  {
    hide Mix, Finish;
    var s1 := V(0x527e2b4a23159f12, 0x648c8ff030fe2648, 0x96f8c6c455b2ef2f, 0x30cae9dd4192209a);
    MixIs(KEYED, 0x746e65746e6f6310,
          V(0x841b9fac07041365, 0xf42043efd8277a22, 0xf9c633085062400a, 0xeba6a3881626b3b7), s1);
    var s2 := V(0x193f2f4a425a9557, 0x107a51dc7b2dc651, 0xad750849e12a0994, 0x1c291fd690cbdda4);
    MixIs(s1, 0x6f697461636f6c2d,
          V(0xbf340bd7eb121f7f, 0x67da00139a1d4858, 0x098b05b11d9121a6, 0x70928b3b63bf7b77), s2);
    var s3 := V(0xd122811ce11ed8aa, 0xda238b09244b6f60, 0x47de2ab799c89669, 0x2fedf5ec08326e89);
    MixIs(s2, 0x110000000000006e,
          V(0x62d11493d5f96b9d, 0x02a63ce78476a601, 0x773861051e203663, 0x7fa4936e9b0dc28a), s3);
    FinishIs(s3,
             V(0x878a709c7ab83718, 0x00ad985fac1cec23, 0x0a81586d51f34953, 0x95b39ed924e8731d),
             V(0x65c2f6e98dfe32bf, 0x21978264b47089f9, 0x322cff9edb68f4c6, 0x10024e2cb599ef05),
             V(0x4e72b50b05626d17, 0x66c69b28d5409278, 0xe4547c55b9463d8b, 0x443d75f57c43ed68),
             V(0x38078d988e1bbf01, 0x1bd9ad3d18d6d2f2, 0xfe781e4a8eee3ce6, 0xf91c91d557d01390));
  }

  lemma Bytes37()
    ensures Message("content-location") == [
      0x10, 0x63, 0x6f, 0x6e, 0x74, 0x65, 0x6e, 0x74, 0x2d, 0x6c, 0x6f, 0x63, 0x61,
      0x74, 0x69, 0x6f, 0x6e]
  {
  }

  lemma Lands37()
    ensures Landing(2, 4, Ascii("content-location")) == 37
  {
    hide Mix, Finish, Hash, Ascii;
    Run37();
    Bytes37();
    var msg := Message("content-location");
    TwoWords(msg, 0x746e65746e6f6310, 0x6f697461636f6c2d, 0x000000000000006e, 0x110000000000006e);
  }

  // transfer-encoding

  lemma Run38()
    ensures Finish(4, Mix(2, Mix(2, Mix(2, KEYED, 0x6566736e61727411), 0x69646f636e652d72), 0x120000000000676e))
         == 0xf765773117d2b3a4
  {
    hide Mix, Finish;
    var s1 := V(0xda88d6f58ae2a4b6, 0x404358199696564c, 0xb722ccb28a005121, 0x1c7acc45682efe60);
    MixIs(KEYED, 0x6566736e61727411,
          V(0x8319b295011e115c, 0xc52829f5cd5a5723, 0xecbb1e09616a2a10, 0x4fc5cdf6d11c91c8), s1);
    var s2 := V(0x848abe86a2631a0a, 0x65ff767eece70153, 0xec337af13c56d371, 0x4d207eaacdf80c23);
    MixIs(s1, 0x69646f636e652d72,
          V(0xb0e064955e2a803c, 0xa5ab5ad49de974a3, 0x7bfd973d9e108db6, 0x82880f5f7b9b6cd1), s2);
    var s3 := V(0x9ce9b333524fa842, 0xbb1a48d310173a35, 0x5e2132d5c7ef64a9, 0x42747f1b1cfa5107);
    MixIs(s2, 0x120000000000676e,
          V(0xc5434fc24b8c96a3, 0x9eab3cf5966bbe2b, 0x79afb6a04f99e235, 0x49cf6f8e784a2985), s3);
    FinishIs(s3,
             V(0x41f58f820df2f32f, 0x8da645b5c0222842, 0x6a0a0a71b1af4ff5, 0xe0a3325ce8c902fa),
             V(0x4706ef79681e8783, 0x8bbdbc38b01f93ee, 0x25959db451daaa02, 0xc7f5ff2f219199b9),
             V(0x2ae2d8e4bd9a3000, 0x29ac8e12c9bcc746, 0x5db00dc152cf5a95, 0x84bf825434586497),
             V(0xe7929b94383fa28a, 0xd83cf0a9c2027b05, 0xa6e5f19fa7bccfd5, 0x6e2eed934a53a5fe));
  }

  lemma Bytes38()
    ensures Message("transfer-encoding") == [
      0x11, 0x74, 0x72, 0x61, 0x6e, 0x73, 0x66, 0x65, 0x72, 0x2d, 0x65, 0x6e, 0x63,
      0x6f, 0x64, 0x69, 0x6e, 0x67]
  {
  }

  lemma Lands38()
    ensures Landing(2, 4, Ascii("transfer-encoding")) == 36
  {
    hide Mix, Finish, Hash, Ascii;
    Run38();
    Bytes38();
    var msg := Message("transfer-encoding");
    TwoWords(msg, 0x6566736e61727411, 0x69646f636e652d72, 0x000000000000676e, 0x120000000000676e);
  }

  // accept-encoding

  lemma Run39()
    ensures Finish(4, Mix(2, Mix(2, Mix(2, KEYED, 0x2d7470656363610f), 0x676e69646f636e65), 0x1000000000000000))
         == 0x0e9072f82de4eb07
  {
    hide Mix, Finish;
    var s1 := V(0x4445fde2b5950c30, 0x75137dd756cf5f04, 0xd8b2821a0fc6194c, 0xb464f936c0e7102b);
    MixIs(KEYED, 0x2d7470656363610f,
          V(0x1e32b5910e1d6e74, 0x0d1e2efecf2b7829, 0xeeca3103a95c2d1b, 0x326caade7d088dc1), s1);
    var s2 := V(0x1aa096baaf6144d2, 0xd1a95badd7c3cc9b, 0x1d59c6daa13c3f11, 0xae54170c58309b7a);
    MixIs(s1, 0x676e69646f636e65,
          V(0x4854291d7a5dc04a, 0xa0676cd96de2d0f7, 0xa6cf7d3082a0a3d0, 0xf54c0995e85abdbd), s2);
    var s3 := V(0xa199f1d843867343, 0xf10579f91733d76b, 0x9e042e89de1f32f9, 0x6f2e8f585f00e79a);
    MixIs(s2, 0x1000000000000000,
          V(0x53c697444e605747, 0x33cbdb1b2e92cb9b, 0xf82345e3a2ea2677, 0xe90ad588d599c377), s3);
    FinishIs(s3,
             V(0xdd252d916d59e25f, 0xd8bd47b7346b356e, 0x5d774e2e4ad30719, 0x817e7adfbc89af03),
             V(0x45ef8d555e41acaa, 0xdb81d2025771b8df, 0xcec582f6fc0a5cd3, 0xf51a86b3b21529e4),
             V(0xfb072148a96cd304, 0xf4621a350d3a13d2, 0x30c825b0df111f64, 0x8cf7de26dcc47973),
             V(0x1a8dc5eab20f4f9d, 0x5c5a770bc007096e, 0xb0b2513169ef9eb2, 0xf8f5912836033346));
  }

  lemma Bytes39()
    ensures Message("accept-encoding") == [
      0x0f, 0x61, 0x63, 0x63, 0x65, 0x70, 0x74, 0x2d, 0x65, 0x6e, 0x63, 0x6f, 0x64,
      0x69, 0x6e, 0x67]
  {
  }

  lemma Lands39()
    ensures Landing(2, 4, Ascii("accept-encoding")) == 39
  {
    hide Mix, Finish, Hash, Ascii, IsTail;
    Run39();
    Bytes39();
    var msg := Message("accept-encoding");
    NoTail(msg);
    TwoWords(msg, 0x2d7470656363610f, 0x676e69646f636e65, 0x0000000000000000, 0x1000000000000000);
  }

  // access-control-allow-origin

  lemma Run40()
    ensures Finish(4, Mix(2,
      Mix(2, Mix(2, Mix(2, KEYED, 0x2d7373656363611b), 0x2d6c6f72746e6f63), 0x726f2d776f6c6c61),
      0x1c0000006e696769))
         == 0xc6ba0aefe63ec0a7
  {
    hide Mix, Finish;
    var s1 := V(0x25d7fbfb93e90b13, 0x557d85a85995c593, 0xd7fa5f4d53a8e1d8, 0x49fd8faf1faf06fc);
    MixIs(KEYED, 0x2d7373656363611b,
          V(0x1b31b0910e116e6f, 0x0d1f29fecf2b7825, 0xeeca310fa95d2a1b, 0x976fad5e7c64edfb), s1);
    var s2 := V(0xb226a383001f7ff7, 0x16015b0418e330be, 0xd82566cbf527194a, 0xbb9b66a72fcc6be5);
    MixIs(s1, 0x2d6c6f72746e6f63,
          V(0xc9cffc92524ab189, 0x1d4e612561249241, 0x15370580086ccabc, 0xb4b52237ae913bac), s2);
    var s3 := V(0x2921f30252e7d7ea, 0xc51c18ef263a50b5, 0x02b2a17a730f58da, 0x4799529c7209aeff);
    MixIs(s2, 0x726f2d776f6c6c61,
          V(0x02cca2f1fa6be7c1, 0x7e57ce1d503755cd, 0xb4dc934385613037, 0x454aea8cdd36deff), s3);
    var s4 := V(0x840f774609397814, 0x6cff80d670595a6a, 0x68928ed83830aaed, 0x8816fd174f601eac);
    MixIs(s3, 0x1c0000006e696769,
          V(0x85fa1116352485da, 0x15038525e2dc68eb, 0xc2a4b2accb6fe34c, 0x8b32cdd908051f27), s4);
    FinishIs(s4,
             V(0x8751970e8a4b38c4, 0x9d9367b9e5b26ab7, 0xda70689ff1bdc206, 0x16a2b0869f4a8f1c),
             V(0xb19329e742f94648, 0xbdda9ef2122131cc, 0xb3b3a1eb3926dba4, 0x7c10eb6fb2f174f8),
             V(0x19c5b7c0084df565, 0x7942f1bf8062392c, 0x5f3c404b6c7817f8, 0xecb6abc599d56002),
             V(0x68e7a455f95844cb, 0xabd5daaf969083cd, 0xd5e319b319324584, 0xd06b6da690c44225));
  }

  lemma Bytes40()
    ensures Message("access-control-allow-origin") == [
      0x1b, 0x61, 0x63, 0x63, 0x65, 0x73, 0x73, 0x2d, 0x63, 0x6f, 0x6e, 0x74, 0x72,
      0x6f, 0x6c, 0x2d, 0x61, 0x6c, 0x6c, 0x6f, 0x77, 0x2d, 0x6f, 0x72, 0x69, 0x67,
      0x69, 0x6e]
  {
  }

  lemma Lands40()
    ensures Landing(2, 4, Ascii("access-control-allow-origin")) == 39
  {
    hide Mix, Finish, Hash, Ascii;
    Run40();
    Bytes40();
    var msg := Message("access-control-allow-origin");
    ThreeWords(msg,
      0x2d7373656363611b, 0x2d6c6f72746e6f63, 0x726f2d776f6c6c61, 0x000000006e696769, 0x1c0000006e696769);
  }

  // expect

  lemma Run41()
    ensures Finish(4, Mix(2, KEYED, 0x0774636570786506)) == 0x6e788d390e085ff8
  {
    hide Mix, Finish;
    var s1 := V(0x57471ae049bd08ae, 0xe0f6449e0e1cf588, 0x84812356c52eef51, 0x3b32d711398bb71e);
    MixIs(KEYED, 0x0774636570786506,
          V(0x113293a7df09605d, 0x1b1e39fefa5465d0, 0xdbb52cfabf5c3a1b, 0xfe0aaf6a6f3d23ed), s1);
    FinishIs(s1,
             V(0xc07cc22281e1fd7c, 0x8d190bf40c7269a9, 0xc82388f4b0629925, 0xbdf5f6b13e2ce924),
             V(0xfefca8ae55410dd2, 0x6c3549fc1cfc0119, 0xb1f0d8cff304cf3e, 0xcfdc5dc9a2cf18da),
             V(0x4e41a341f83b1a6e, 0xa1b043f3c1298f99, 0x87f20b8543dba7cf, 0xc490026500a09afc),
             V(0x084bb752ce726d90, 0x0a30bdd5f1702fe3, 0xcd13e0fc3411acfa, 0xa1106742051bb171));
  }

  lemma Bytes41()
    ensures Message("expect") == [0x06, 0x65, 0x78, 0x70, 0x65, 0x63, 0x74]
  {
  }

  lemma Lands41()
    ensures Landing(2, 4, Ascii("expect")) == 40
  {
    hide Mix, Finish, Hash, Ascii;
    Run41();
    Bytes41();
    var msg := Message("expect");
    NoWord(msg, 0x0074636570786506, 0x0774636570786506);
  }

  // if-range

  lemma Run42()
    ensures Finish(4, Mix(2, Mix(2, KEYED, 0x676e61722d666908), 0x0900000000000065)) == 0x7affe337fd205faa
  {
    hide Mix, Finish;
    var s1 := V(0x1952129433749328, 0x2f0cd195e31be7a0, 0xe4dd3c36085bfb11, 0x95ea087d2c566482);
    MixIs(KEYED, 0x676e61722d666908,
          V(0x6f15e0a4c018fc5d, 0xfb203fe9992e602a, 0xb8cf29005f623c0c, 0xe1c1be65f038fc47), s1);
    var s2 := V(0xa5dc56086454bd0b, 0x4670dd0a9add16db, 0xa59e4d0e09e27000, 0xf687bb1a55e2e128);
    MixIs(s1, 0x0900000000000065,
          V(0xa04ae3ad98b4a73c, 0xe4a1483461457bf9, 0x9f16df2154339cfc, 0xbce0e915fae59071), s2);
    FinishIs(s2,
             V(0x266e31b1ab3ad7b2, 0x5480d3a4cbe1e297, 0xbdb00d4f94126871, 0x9f39ec053f3e3039),
             V(0x280980b45e580ce9, 0x85d103e3bf2c28b4, 0x1e9ee983bd85957f, 0xe555ed94ac2e1171),
             V(0x0be4b0d4269cc83d, 0x7760fbb34809575a, 0x02464c17919bca96, 0x6d2ba89c52210432),
             V(0x3693c62a6ad4506a, 0x80a932a08afd1824, 0x280a20430ba5ba3a, 0xe4cf37fe16acadde));
  }

  lemma Bytes42()
    ensures Message("if-range") == [0x08, 0x69, 0x66, 0x2d, 0x72, 0x61, 0x6e, 0x67, 0x65]
  {
  }

  lemma Lands42()
    ensures Landing(2, 4, Ascii("if-range")) == 42
  {
    hide Mix, Finish, Hash, Ascii;
    Run42();
    Bytes42();
    var msg := Message("if-range");
    OneWord(msg, 0x676e61722d666908, 0x0000000000000065, 0x0900000000000065);
  }

  // last-modified

  lemma Run43()
    ensures Finish(4, Mix(2, Mix(2, KEYED, 0x6f6d2d7473616c0d), 0x0e00646569666964)) == 0x9e1f1384dc4ccd7a
  {
    hide Mix, Finish;
    var s1 := V(0xe5fef55a71a4052b, 0xf79ccc9d06e91c65, 0x2b058eeb957443da, 0xb9e0497d5071608b);
    MixIs(KEYED, 0x6f6d2d7473616c0d,
          V(0xa31952a1eb18ff63, 0xc3217befff2d6f2f, 0xdecc26056763780a, 0x6d60ec607bfe7feb), s1);
    var s2 := V(0x1bf09cdf189ab51a, 0x6db7cb7b8382eec8, 0xf8141e898bc02aa2, 0xfe386e4b2477e8c4);
    MixIs(s1, 0x0e00646569666964,
          V(0x488aa6a5a500bc20, 0xe4baab2d174a653c, 0x298ced2c26ee1d2e, 0xea124a3ae0394390), s2);
    FinishIs(s2,
             V(0x34254c85e2a55573, 0x574627762d5420fb, 0x71fcc1756713a4ff, 0x204e531841965586),
             V(0xd14ccb8a889b4ec7, 0x8d7ddd280d9c8800, 0x3490170be1d0cae4, 0x72336e71d1e364ad),
             V(0x5eea2b6635e40654, 0xde312011343a3c26, 0xbaebf6f98c332e7e, 0xcd30c84d81bd101e),
             V(0xaa6f81745b0a3f23, 0x7ad6760208f2ea6a, 0x3b8ad858a1362d37, 0x752c3caa2e823504));
  }

  lemma Bytes43()
    ensures Message("last-modified") == [
      0x0d, 0x6c, 0x61, 0x73, 0x74, 0x2d, 0x6d, 0x6f, 0x64, 0x69, 0x66, 0x69, 0x65,
      0x64]
  {
  }

  lemma Lands43()
    ensures Landing(2, 4, Ascii("last-modified")) == 42
  {
    hide Mix, Finish, Hash, Ascii;
    Run43();
    Bytes43();
    var msg := Message("last-modified");
    OneWord(msg, 0x6f6d2d7473616c0d, 0x0000646569666964, 0x0e00646569666964);
  }

  // content-type

  lemma Run44()
    ensures Finish(4, Mix(2, Mix(2, KEYED, 0x746e65746e6f630c), 0x0d0000657079742d)) == 0xa953b7de43f83c2c
  {
    hide Mix, Finish;
    var s1 := V(0x50c2376a22fd98ba, 0x648c8baf31f1a644, 0x97e746c855b2ebab, 0xb576d8fd4ffa572e);
    MixIs(KEYED, 0x746e65746e6f630c,
          V(0x841b9fac07201361, 0xf42043efd8277a2e, 0xf9c633045062400a, 0xeba6a0081782b3b3), s1);
    var s2 := V(0x267dee2610d13d04, 0x4e0249467859d269, 0xb1540a42a337510c, 0x77956d2fef4d8794);
    MixIs(s1, 0x0d0000657079742d,
          V(0xddb55fe26b8479f1, 0x3ed784c89183896b, 0xf55dc11d74994487, 0xc1c39954b0956135), s2);
    FinishIs(s2,
             V(0xcef1a7ac8990e57e, 0x965d091608b17b65, 0x45eb003466926fda, 0xc91305b94bd85dad),
             V(0x9d89af195515b556, 0x30c30d9fcbc81777, 0x6f999fafd36a77c2, 0x5b3457f9c794ddbf),
             V(0xbe11fd0b158ccb6e, 0xf14d790fe899dfa8, 0xbd3280567acd3d69, 0xb9b9150ac33f6de8),
             V(0x6208017503438902, 0x6179abcc699e606d, 0x03e06090776a206b, 0xa9c27df75e4ff528));
  }

  lemma Bytes44()
    ensures Message("content-type") == [0x0c, 0x63, 0x6f, 0x6e, 0x74, 0x65, 0x6e, 0x74, 0x2d, 0x74, 0x79, 0x70, 0x65]
  {
  }

  lemma Lands44()
    ensures Landing(2, 4, Ascii("content-type")) == 44
  {
    hide Mix, Finish, Hash, Ascii;
    Run44();
    Bytes44();
    var msg := Message("content-type");
    OneWord(msg, 0x746e65746e6f630c, 0x000000657079742d, 0x0d0000657079742d);
  }

  // set-cookie

  lemma Run45()
    ensures Finish(4, Mix(2, Mix(2, KEYED, 0x6f6f632d7465730a), 0x0b0000000065696b)) == 0x3f0500612bdd4a0c
  {
    hide Mix, Finish;
    var s1 := V(0xe312635d7f815e51, 0x1431af36483876cb, 0xac6de167389e2b51, 0x4856ea1c72b78b29);
    MixIs(KEYED, 0x6f6f632d7465730a,
          V(0xe96d8f5af117fe7a, 0xc3233a36fe316bd4, 0xdfd022fe676139d3, 0x8cf7f1fb82d8b56a), s1);
    var s2 := V(0x5be697a364344248, 0xbe9efcdc5d440a67, 0x1f9622d070e95471, 0xecb4b9afbfcfba7d);
    MixIs(s1, 0x0b0000000065696b,
          V(0xcd928e6e40776158, 0x054e35d91be44068, 0x74d1c52db267a718, 0xe7bba80798d7da4f), s2);
    FinishIs(s2,
             V(0x775daffea54a783e, 0xeec67c3e061440bb, 0x70edca87d168fc57, 0x1eacf762d2bcc492),
             V(0x2456cc4fc6dc0a81, 0xe0c2e87b4d2cd54d, 0xc76f860a393eaee8, 0x4e9adab40e731583),
             V(0xe0c74e9b574c3fbc, 0xd4fc236e11ff986c, 0xd65328416e213e2c, 0x396d08ca0975a871),
             V(0x705610a795ab51f9, 0x2103d5ce94b34a09, 0x11dd2954416ee142, 0x7f8dec5c6babb0be));
  }

  lemma Bytes45()
    ensures Message("set-cookie") == [0x0a, 0x73, 0x65, 0x74, 0x2d, 0x63, 0x6f, 0x6f, 0x6b, 0x69, 0x65]
  {
  }

  lemma Lands45()
    ensures Landing(2, 4, Ascii("set-cookie")) == 44
  {
    hide Mix, Finish, Hash, Ascii;
    Run45();
    Bytes45();
    var msg := Message("set-cookie");
    OneWord(msg, 0x6f6f632d7465730a, 0x000000000065696b, 0x0b0000000065696b);
  }

  // accept

  lemma Run46()
    ensures Finish(4, Mix(2, KEYED, 0x0774706563636106)) == 0x0cab80e62b98f7ce
  {
    hide Mix, Finish;
    var s1 := V(0x297bd167b6861cf8, 0x83137e97d565af4f, 0xaff85251f9c61a60, 0x74bcf391f80f6442);
    MixIs(KEYED, 0x0774706563636106,
          V(0x2032b5910e16445d, 0x1b1e2efecf2b79d0, 0xeeca30fabf5c2d1b, 0x0c6cabfb3e2067e8), s1);
    FinishIs(s1,
             V(0x63108a3442265a5c, 0x82b48733579c3dbd, 0x2fd7bb06e812fb37, 0xde8238d5099cbecb),
             V(0xd04f9261352975e7, 0x7455539a40ba0817, 0x1024e251837d6f70, 0x98a67eeda52fa478),
             V(0x4c0a420ed17a7149, 0xcc7b66e87b677af3, 0x5d8ea75c97a30f2b, 0xce1bd8bfb8a0b591),
             V(0x3ff724f8fe57b39e, 0xef3460c8df65b2de, 0xf4035a6fa00327b7, 0x286b9eb9aaa9d139));
  }

  lemma Bytes46()
    ensures Message("accept") == [0x06, 0x61, 0x63, 0x63, 0x65, 0x70, 0x74]
  {
  }

  lemma Lands46()
    ensures Landing(2, 4, Ascii("accept")) == 46
  {
    hide Mix, Finish, Hash, Ascii;
    Run46();
    Bytes46();
    var msg := Message("accept");
    NoWord(msg, 0x0074706563636106, 0x0774706563636106);
  }

  // max-forwards

  lemma Run47()
    ensures Finish(4, Mix(2, Mix(2, KEYED, 0x726f662d78616d0c), 0x0d00007364726177)) == 0x9d281b3fa84dccae
  {
    hide Mix, Finish;
    var s1 := V(0x33bd5d82977be7b1, 0xdbe510048c2fdce1, 0xeebbf88df075e981, 0xc5fd0a9849149be4);
    MixIs(KEYED, 0x726f662d78616d0c,
          V(0x7f6d90570f1a0360, 0xf6233d36c22d6c2e, 0xe3cc250452613ed3, 0xfa73aeb51f980870), s1);
    var s2 := V(0x0ffcee3b3b012f00, 0x512aaef15c4cb6b1, 0x0875d9ccd0d4c056, 0x90e0cca9c9530645);
    MixIs(s1, 0x0d00007364726177,
          V(0xe0fdf2b1f6f19a70, 0x9d5e4f1409c9bf47, 0xf614e402655bff7b, 0x23011b546bc63035), s2);
    FinishIs(s2,
             V(0xed4d54d6fd89f33a, 0xa31a5e2c04ebff71, 0x9bc39682ce505d1b, 0x09fed89c3c434cd7),
             V(0x7fd44607d6ac530f, 0xe658598a05bec7fe, 0x882f70ba8164a2bd, 0x145c8e93d723f8c5),
             V(0xee83437b067a2f6f, 0xb7e5d75dd291b973, 0x5d1d634809a9de74, 0xe3374acafdb86c6a),
             V(0xe3aa3c8e1171c4c1, 0x1dc292d6c9bbd1f9, 0xf587e8fc5cd74e9d, 0x96c75d9b2c50970b));
  }

  lemma Bytes47()
    ensures Message("max-forwards") == [0x0c, 0x6d, 0x61, 0x78, 0x2d, 0x66, 0x6f, 0x72, 0x77, 0x61, 0x72, 0x64, 0x73]
  {
  }

  lemma Lands47()
    ensures Landing(2, 4, Ascii("max-forwards")) == 46
  {
    hide Mix, Finish, Hash, Ascii;
    Run47();
    Bytes47();
    var msg := Message("max-forwards");
    OneWord(msg, 0x726f662d78616d0c, 0x0000007364726177, 0x0d00007364726177);
  }

  lemma Landings0(i: nat)
    requires 0 <= i < 8
    ensures Landing(2, 4, HeaderMap(i).0) == i - Distance(i)
  {
    hide Landing, Ascii;
    if {
      case i == 0 => Lands0();
      case i == 1 => Lands1();
      case i == 2 => Lands2();
      case i == 3 => Lands3();
      case i == 4 => Lands4();
      case i == 5 => Lands5();
      case i == 6 => Lands6();
      case i == 7 => Lands7();
    }
  }

  lemma Landings8(i: nat)
    requires 8 <= i < 16
    ensures Landing(2, 4, HeaderMap(i).0) == i - Distance(i)
  {
    hide Landing, Ascii;
    if {
      case i == 8 => Lands8();
      case i == 9 => Lands9();
      case i == 10 => Lands10();
      case i == 11 => Lands11();
      case i == 12 => Lands12();
      case i == 13 => Lands13();
      case i == 14 => Lands14();
      case i == 15 => Lands15();
    }
  }

  lemma Landings16(i: nat)
    requires 16 <= i < 24
    ensures Landing(2, 4, HeaderMap(i).0) == i - Distance(i)
  {
    hide Landing, Ascii;
    if {
      case i == 16 => Lands16();
      case i == 17 => Lands17();
      case i == 18 => Lands18();
      case i == 19 => Lands19();
      case i == 20 => Lands20();
      case i == 21 => Lands21();
      case i == 22 => Lands22();
      case i == 23 => Lands23();
    }
  }

  lemma Landings24(i: nat)
    requires 24 <= i < 32
    ensures Landing(2, 4, HeaderMap(i).0) == i - Distance(i)
  {
    hide Landing, Ascii;
    if {
      case i == 24 => Lands24();
      case i == 25 => Lands25();
      case i == 26 => Lands26();
      case i == 27 => Lands27();
      case i == 28 => Lands28();
      case i == 29 => Lands29();
      case i == 30 => Lands30();
      case i == 31 => Lands31();
    }
  }

  lemma Landings32(i: nat)
    requires 32 <= i < 40
    ensures Landing(2, 4, HeaderMap(i).0) == i - Distance(i)
  {
    hide Landing, Ascii;
    if {
      case i == 32 => Lands32();
      case i == 33 => Lands33();
      case i == 34 => Lands34();
      case i == 35 => Lands35();
      case i == 36 => Lands36();
      case i == 37 => Lands37();
      case i == 38 => Lands38();
      case i == 39 => Lands39();
    }
  }

  lemma Landings40(i: nat)
    requires 40 <= i < 48
    ensures Landing(2, 4, HeaderMap(i).0) == i - Distance(i)
  {
    hide Landing, Ascii;
    if {
      case i == 40 => Lands40();
      case i == 41 => Lands41();
      case i == 42 => Lands42();
      case i == 43 => Lands43();
      case i == 44 => Lands44();
      case i == 45 => Lands45();
      case i == 46 => Lands46();
      case i == 47 => Lands47();
    }
  }

  /** Every name of the map lands at most two places before its own. */
  lemma Landings(i: nat)
    requires i < HEADER_MAP_SIZE
    ensures Distance(i) <= i && Landing(2, 4, HeaderMap(i).0) == i - Distance(i)
  {
    hide Landing, HeaderMap;
    if {
      case i < 8 => Landings0(i);
      case 8 <= i < 16 => Landings8(i);
      case 16 <= i < 24 => Landings16(i);
      case 24 <= i < 32 => Landings24(i);
      case 32 <= i < 40 => Landings32(i);
      case 40 <= i => Landings40(i);
    }
  }
}
