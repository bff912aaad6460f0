/** The Huffman code as a prefix code: code words, walks in the decoder's tree, and unique parsing.

    The encoder reads its code words from two tables, the decoder walks a third; everything below is
    about bit sequences and holds because the tree spells the code tables. */
module HuffmanTheory {
  import opened Wrappers
  import opened Words
  import opened HuffmanTables

  /** A byte, or 256 for the end of string. */
  type Symbol = s: nat | s < 257

  /** The code word of a symbol, first transmitted bit first. */
  function Code(s: Symbol): (c: seq<bool>)
    ensures |c| == HuffmanCodeLen(s)
  {
    CodeBits(HuffmanCode(s), HuffmanCodeLen(s))
  }

  /** The low len bits of `code`, most significant first. */
  function CodeBits(code: nat, len: nat): (c: seq<bool>)
    ensures |c| == len
  {
    seq(len, i requires 0 <= i < len => Bit(code, len - 1 - i))
  }

  lemma CodeBitsStep(code: nat, len: nat, b: bool)
    ensures CodeBits(2 * code + (if b then 1 else 0), len + 1) == CodeBits(code, len) + [b]
  {
    var longer := 2 * code + (if b then 1 else 0);
    forall i | 0 <= i < len
      ensures CodeBits(longer, len + 1)[i] == CodeBits(code, len)[i]
    {
      assert longer / 2 == code;
      assert Bit(longer, len - i) == Bit(code, len - 1 - i);
    }
    assert Bit(longer, 0) == b;
  }

  /** The concatenated code words of a symbol string. */
  function CodesOf(syms: seq<Symbol>): (bits: seq<bool>)
  {
    if syms == [] then [] else Code(syms[0]) + CodesOf(syms[1..])
  }

  lemma {:induction false} CodesOfConcat(a: seq<Symbol>, b: seq<Symbol>)
    ensures CodesOf(a + b) == CodesOf(a) + CodesOf(b)
    decreases |a|
  {
    if a == [] {
      assert a + b == b;
    } else {
      assert (a + b)[1..] == a[1..] + b;
      CodesOfConcat(a[1..], b);
    }
  }

  lemma CodesOfSnoc(a: seq<Symbol>, s: Symbol)
    ensures CodesOf(a + [s]) == CodesOf(a) + Code(s)
  {
    CodesOfConcat(a, [s]);
    assert CodesOf([s]) == Code(s) + CodesOf([s][1..]);
  }

  /** k one-bits: the padding, and for k == 30 the code word of EOS. */
  function Ones(k: nat): (bits: seq<bool>)
    ensures |bits| == k
  {
    seq(k, i => true)
  }

  // ---------- walks in the tree ----------

  predicate IsLeaf(i: nat)
    requires i < NODES
  {
    TreeList(i).left == 0
  }

  /** One step of the decoder from node i: right on a one-bit, left on a zero-bit. */
  function Step(i: nat, b: bool): nat
    requires i < NODES
  {
    if b then TreeList(i).right else TreeList(i).left
  }

  /** The node reached from node i along the path p, stepping from branches only. */
  function Walk(i: nat, p: seq<bool>): Option<nat>
    decreases |p|
  {
    if i >= NODES then None
    else if p == [] then Some(i)
    else if IsLeaf(i) then None
    else Walk(Step(i, p[0]), p[1..])
  }

  lemma WalkCons(i: nat, b: bool, rest: seq<bool>)
    requires i < NODES && !IsLeaf(i)
    ensures Walk(i, [b] + rest) == Walk(Step(i, b), rest)
  {
    assert ([b] + rest)[1..] == rest;
  }

  lemma {:induction false} WalkConcat(i: nat, p: seq<bool>, q: seq<bool>)
    ensures Walk(i, p + q) == match Walk(i, p) case None => None case Some(j) => Walk(j, q)
    decreases |p|
  {
    if p == [] {
      assert p + q == q;
    } else if i < NODES && !IsLeaf(i) {
      assert (p + q)[1..] == p[1..] + q;
      WalkConcat(Step(i, p[0]), p[1..], q);
    }
  }

  /** Nothing continues a walk beyond a leaf. */
  lemma WalkPastLeaf(p: seq<bool>, q: seq<bool>, j: nat)
    requires Walk(0, p) == Some(j) && j < NODES && IsLeaf(j) && q != []
    ensures Walk(0, p + q) == None
  {
    WalkConcat(0, p, q);
  }

  /** p leads from the root to a branch: the decoder is inside a code word, or between two. */
  predicate Incomplete(p: seq<bool>) {
    match Walk(0, p)
    case None => false
    case Some(i) => i < NODES && !IsLeaf(i)
  }

  // ---------- the tree spells the code tables ----------

  /** Every node of a checked subtree is a branch with its children in place, or a leaf of a symbol. */
  lemma {:induction false} SpanWellFormed(i: nat, code: nat, len: nat, h: nat, j: nat)
    requires i < NODES && i <= j < Span(i, code, len, h)
    ensures Span(i, code, len, h) <= NODES
    ensures j < NODES
    ensures !IsLeaf(j) ==> TreeList(j).left == j + 1 && j + 1 < TreeList(j).right < NODES
    ensures IsLeaf(j) ==> TreeList(j).right < SYMBOLS
    decreases h
  {
    hide TreeList, HuffmanCode, HuffmanCodeLen, LeafOf;
    var n := TreeList(i);
    if n.left != 0 {
      SpanWellFormed(n.right, 2 * code + 1, len + 1, h - 1, if j < n.right then n.right else j) by {
        SpanPositive(n.right, 2 * code + 1, len + 1, h - 1);
      }
      if i < j < n.right { SpanWellFormed(n.left, 2 * code, len + 1, h - 1, j); }
    }
  }

  lemma {:induction false} SpanPositive(i: nat, code: nat, len: nat, h: nat)
    requires i < NODES && Span(i, code, len, h) != 0
    ensures i < Span(i, code, len, h)
    decreases h
  {
    var n := TreeList(i);
    if n.left != 0 { SpanPositive(n.right, 2 * code + 1, len + 1, h - 1); }
  }

  /** Each leaf of a checked subtree is reached along the rest of its symbol's code word. */
  lemma {:induction false} SpanPath(i: nat, code: nat, len: nat, h: nat, j: nat) returns (p: seq<bool>)
    requires i < NODES && i <= j < Span(i, code, len, h) <= NODES
    requires IsLeaf(j) && TreeList(j).right < SYMBOLS
    ensures Walk(i, p) == Some(j)
    ensures Code(TreeList(j).right) == CodeBits(code, len) + p
    decreases h
  {
    hide TreeList, HuffmanCode, HuffmanCodeLen, LeafOf;
    var n := TreeList(i);
    if n.left == 0 {
      p := [];
    } else {
      var b := j >= n.right;
      var rest := SpanPath(Step(i, b), 2 * code + (if b then 1 else 0), len + 1, h - 1, j);
      p := [b] + rest;
      WalkCons(i, b, rest);
      CodeBitsStep(code, len, b);
      assert CodeBits(code, len) + [b] + rest == CodeBits(code, len) + p;
    }
  }

  /** A walk that ends in a leaf of a checked subtree spells the rest of that symbol's code word. */
  lemma {:induction false} SpanSpells(i: nat, code: nat, len: nat, h: nat, p: seq<bool>, j: nat)
    requires i < NODES && 0 < Span(i, code, len, h)
    requires Walk(i, p) == Some(j) && j < NODES && IsLeaf(j)
    ensures TreeList(j).right < SYMBOLS
    ensures Code(TreeList(j).right) == CodeBits(code, len) + p
    decreases h
  {
    hide TreeList, HuffmanCode, HuffmanCodeLen, LeafOf, CodeBits;
    var n := TreeList(i);
    if p != [] {
      CodeBitsStep(code, len, p[0]);
      SpanSpells(Step(i, p[0]), 2 * code + (if p[0] then 1 else 0), len + 1, h - 1, p[1..], j);
      assert CodeBits(code, len) + [p[0]] + p[1..] == CodeBits(code, len) + p;
    } else {
      assert CodeBits(code, len) + p == CodeBits(code, len);
    }
  }

  /** The whole tree is in order, and every node of it is in bounds. */
  lemma TreeWellFormed(j: nat)
    requires j < NODES
    ensures !IsLeaf(j) ==> TreeList(j).left == j + 1 && j + 1 < TreeList(j).right < NODES
    ensures IsLeaf(j) ==> TreeList(j).right < SYMBOLS
  {
    WholeTree(31);
    SpanWellFormed(0, 0, 0, 31, j);
  }

  /** The decoder, fed the encoder's code word of s, arrives at the leaf of s. */
  lemma CodeWalk(s: Symbol)
    ensures LeafOf(s) < NODES && Walk(0, Code(s)) == Some(LeafOf(s))
    ensures TreeList(LeafOf(s)) == TreeNode(0, s)
  {
    SymbolPlaced(s);
    WholeTree(31);
    var p := SpanPath(0, 0, 0, 31, LeafOf(s));
    assert CodeBits(0, 0) + p == p;
  }

  /** The decoder arrives at a leaf only by reading the encoder's code word of its symbol. */
  lemma LeafIsCode(p: seq<bool>, j: nat)
    requires Walk(0, p) == Some(j) && j < NODES && IsLeaf(j)
    ensures TreeList(j).right < SYMBOLS && p == Code(TreeList(j).right)
  {
    WholeTree(31);
    SpanSpells(0, 0, 0, 31, p, j);
    assert CodeBits(0, 0) + p == p;
  }

  // ---------- prefix freeness and unique parsing ----------

  /** No code word is a prefix of an incomplete path. */
  lemma CodeNotInside(s: Symbol, x: seq<bool>)
    ensures !Incomplete(Code(s) + x)
  {
    CodeWalk(s);
    if x == [] {
      assert Code(s) + x == Code(s);
    } else {
      WalkPastLeaf(Code(s), x, LeafOf(s));
    }
  }

  lemma CodeNotProperPrefix(s: Symbol, t: Symbol, gap: seq<bool>)
    requires Code(t) == Code(s) + gap
    ensures s == t && gap == []
  {
    hide Code, TreeList, LeafOf, Walk, HuffmanCode, HuffmanCodeLen;
    CodeWalk(s);
    CodeWalk(t);
    if gap != [] {
      WalkPastLeaf(Code(s), gap, LeafOf(s));
    }
    assert Code(s) + [] == Code(s);
  }

  /** Of two sequences that start alike, the shorter start begins the longer. */
  lemma SharedStart(c: seq<bool>, x: seq<bool>, d: seq<bool>, y: seq<bool>)
    requires c + x == d + y && |c| <= |d|
    ensures d == c + d[|c|..] && (|c| == |d| ==> x == y)
  {
    assert c == (c + x)[..|c|] == (d + y)[..|c|] == d[..|c|];
    assert x == (c + x)[|c|..];
    assert y == (d + y)[|d|..];
  }

  /** The code is prefix free. */
  lemma CodePrefixFree(s: Symbol, t: Symbol, x: seq<bool>, y: seq<bool>)
    requires Code(s) + x == Code(t) + y
    ensures s == t && x == y
  {
    hide Code, HuffmanCodeLen;
    if |Code(s)| <= |Code(t)| {
      SharedStart(Code(s), x, Code(t), y);
      CodeNotProperPrefix(s, t, Code(t)[|Code(s)|..]);
    } else {
      SharedStart(Code(t), y, Code(s), x);
      CodeNotProperPrefix(t, s, Code(s)[|Code(t)|..]);
    }
  }

  /** Code words are not empty. */
  lemma CodeNonEmpty(s: Symbol)
    ensures Code(s) != []
  {
    CodeWalk(s);
    assert !IsLeaf(0);
  }

  /** Any parse into code words is followed by every parse that leaves an incomplete rest: a string
      of code words at the front of `bits` is a prefix of the one that exhausts `bits`. */
  lemma {:induction false} ParsePrefix(a: seq<Symbol>, p: seq<bool>, b: seq<Symbol>, x: seq<bool>)
    requires CodesOf(a) + p == CodesOf(b) + x && Incomplete(p)
    ensures b <= a
    decreases |b|
  {
    hide Code, Incomplete;
    if b != [] {
      assert CodesOf(b) + x == Code(b[0]) + (CodesOf(b[1..]) + x);
      if a == [] {
        assert CodesOf(a) + p == p;
        CodeNotInside(b[0], CodesOf(b[1..]) + x);
      } else {
        assert CodesOf(a) + p == Code(a[0]) + (CodesOf(a[1..]) + p);
        CodePrefixFree(a[0], b[0], CodesOf(a[1..]) + p, CodesOf(b[1..]) + x);
        ParsePrefix(a[1..], p, b[1..], x);
        assert a == [a[0]] + a[1..] && b == [b[0]] + b[1..];
      }
    }
  }

  /** A bit string has at most one parse into code words and an incomplete rest. */
  lemma ParseUnique(a: seq<Symbol>, p: seq<bool>, b: seq<Symbol>, q: seq<bool>)
    requires CodesOf(a) + p == CodesOf(b) + q && Incomplete(p) && Incomplete(q)
    ensures a == b && p == q
  {
    ParsePrefix(a, p, b, q);
    ParsePrefix(b, q, a, p);
    assert p == (CodesOf(a) + p)[|CodesOf(a)|..];
    assert q == (CodesOf(b) + q)[|CodesOf(b)|..];
  }

  // ---------- padding ----------

  lemma EosCode()
    ensures Code(EOS) == Ones(30)
  {
    assert Pow2(30) == 0x4000_0000 by {
      Pow2Add(15, 15);
      assert Pow2(15) == 32768 by { assert Pow2(8) == 256; Pow2Add(8, 7); assert Pow2(7) == 128; }
    }
    forall i | 0 <= i < 30
      ensures Code(EOS)[i]
    {
      MaskBit(30, 29 - i);
    }
  }

  /** Fewer than 30 one-bits never complete a code word. */
  lemma OnesIncomplete(k: nat)
    requires k < 30
    ensures Incomplete(Ones(k))
  {
    EosCode();
    CodeWalk(EOS);
    assert Ones(30) == Ones(k) + Ones(30 - k);
    WalkConcat(0, Ones(k), Ones(30 - k));
    var j := Walk(0, Ones(k)).value;
    assert Ones(30 - k) != [];
  }

  /** 30 one-bits or more always complete one, so an all-ones incomplete path is short padding. */
  lemma IncompleteOnes(k: nat)
    requires Incomplete(Ones(k))
    ensures k < 30
  {
    if k >= 30 {
      EosCode();
      assert Ones(k) == Code(EOS) + Ones(k - 30);
      CodeNotInside(EOS, Ones(k - 30));
    }
  }

  lemma RootIncomplete()
    ensures Incomplete([])
  {
    OnesIncomplete(0);
    assert Ones(0) == [];
  }
}
