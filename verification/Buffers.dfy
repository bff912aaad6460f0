/** The growing byte buffer with its own allocator (buffer.rs). */
module Buffers {
  import opened Words

  /** Lower bounds that the size hints of an iterator over n elements may give: after each element,
      no more than are left. */
  ghost predicate Hints(n: nat, lower: seq<nat>) {
    |lower| == n && forall i :: 0 <= i < n ==> lower[i] <= n - 1 - i
  }

  ghost predicate Exact(lower: seq<nat>) {
    forall i :: 0 <= i < |lower| ==> lower[i] == |lower| - 1 - i
  }

  /** The hints of an iterator that knows its length. */
  function ExactHints(n: nat): (lower: seq<nat>)
    ensures Hints(n, lower) && Exact(lower)
  {
    seq(n, i requires 0 <= i < n => n - 1 - i)
  }

  /** `buf` holds `cap` bytes of which the first `len` are meaningful; a buffer without memory has
      `buf == null`. The ghost fields account for the allocator: bytes handed out, bytes given
      back, bytes that reallocations have copied since the buffer last had no memory, and how many
      reallocations there were. */
  class Buffer {
    var len: nat
    var cap: nat
    var buf: array?<u8>
    ghost var acquired: nat
    ghost var freed: nat
    ghost var copied: nat
    ghost var grown: nat

    ghost predicate Valid()
      reads this, buf
    {
      && len <= cap
      && (buf == null <==> cap == 0)
      && (buf != null ==> buf.Length == cap)
      && acquired == freed + cap
      && copied <= cap
    }

    ghost function Repr(): set<object>
      reads this
    {
      if buf == null then {this} else {this, buf}
    }

    /** The bytes in the buffer. */
    ghost function Contents(): (s: seq<u8>)
      requires Valid()
      reads this, buf
      ensures |s| == len
    {
      if buf == null then [] else buf[..len]
    }

    /** `http_new_buffer_with` */
    constructor (len: nat)
      ensures Valid() && fresh(Repr())
      ensures Contents() == [] && cap == len
      ensures acquired == len && freed == 0 && copied == 0
    {
      this.len := 0;
      cap := len;
      buf := null;
      acquired, freed, copied, grown := len, 0, 0, 0;
      new;
      if len > 0 {
        buf := new u8[len];
      }
    }

    /** `as_slice`: the bytes in the buffer, none when it has no memory. */
    method AsSlice() returns (s: seq<u8>)
      requires Valid()
      ensures s == Contents()
    {
      if buf == null {
        s := [];
      } else {
        s := buf[..len];
      }
    }

    /** Makes room for `n` bytes in all, doubling the capacity as often as that takes. */
    method ReserveLen(n: nat)
      requires Valid()
      modifies Repr()
      ensures Valid() && fresh(Repr() - old(Repr()))
      ensures Contents() == old(Contents()) && n <= cap
      ensures n <= old(cap) ==> cap == old(cap) && buf == old(buf) && grown == old(grown)
      ensures n > old(cap) ==> 2 * old(cap) <= cap < 2 * n && grown == old(grown) + 1
    {
      var newCap := cap;
      while newCap < n
        invariant newCap == cap || (newCap >= 2 * cap && newCap < 2 * n)
        decreases n - newCap
      {
        newCap := newCap + (if newCap > 1 then newCap else 1);
      }
      if newCap != cap {
        var newBuf := new u8[newCap];
        if len != 0 {
          forall i | 0 <= i < len {
            newBuf[i] := buf[i];
          }
        }
        copied := copied + len;
        acquired := acquired + newCap;
        freed := freed + cap;
        grown := grown + 1;
        buf := newBuf;
        cap := newCap;
      }
    }

    method Reserve(additional: nat)
      requires Valid()
      modifies Repr()
      ensures Valid() && fresh(Repr() - old(Repr()))
      ensures Contents() == old(Contents()) && len + additional <= cap
      ensures len + additional <= old(cap) ==> cap == old(cap) && buf == old(buf) && grown == old(grown)
      ensures len + additional > old(cap) ==> 2 * old(cap) <= cap < 2 * (len + additional) && grown == old(grown) + 1
    {
      ReserveLen(len + additional);
    }

    method Push(v: u8)
      requires Valid()
      modifies Repr()
      ensures Valid() && fresh(Repr() - old(Repr()))
      ensures Contents() == old(Contents()) + [v]
      ensures old(len) < old(cap) ==> cap == old(cap) && buf == old(buf) && grown == old(grown)
      ensures cap == old(cap) || cap < 2 * len
    {
      if len == cap {
        Reserve(1);
      }
      buf[len] := v;
      len := len + 1;
    }

    /** `*last_mut().unwrap() |= x` */
    method OrLast(x: u8)
      requires Valid() && len > 0 && Or(Contents()[len - 1], x) < 0x100
      modifies Repr()
      ensures Valid() && buf == old(buf) && len == old(len)
      ensures Contents() == old(Contents())[len - 1 := Or(old(Contents())[len - 1], x)]
    {
      buf[len - 1] := Or(buf[len - 1], x);
    }

    method PushSlice(s: seq<u8>)
      requires Valid()
      modifies Repr()
      ensures Valid() && fresh(Repr() - old(Repr()))
      ensures Contents() == old(Contents()) + s
      ensures cap == old(cap) || cap < 2 * len
    {
      if |s| == 0 {
        return;
      }
      Reserve(|s|);
      forall i | 0 <= i < |s| {
        buf[len + i] := s[i];
      }
      len := len + |s|;
    }

    method CopySlice(s: seq<u8>)
      requires Valid()
      modifies Repr()
      ensures Valid() && fresh(Repr() - old(Repr()))
      ensures Contents() == s
      ensures cap == old(cap) || cap < 2 * len
    {
      len := 0;
      PushSlice(s);
    }

    method Clear()
      requires Valid()
      modifies this`len
      ensures Valid() && Contents() == []
    {
      len := 0;
    }

    /** `Extend::extend`: pushes one at a time, reserving for what the iterator says is left; `lower[i]`
        is the lower bound of its size hint after i + 1 elements. With exact hints the buffer grows at
        most once. */
    method Extend(iter: seq<u8>, lower: seq<nat>)
      requires Valid() && Hints(|iter|, lower)
      modifies Repr()
      ensures Valid() && fresh(Repr() - old(Repr()))
      ensures Contents() == old(Contents()) + iter
      ensures cap == old(cap) || cap < 2 * len
      ensures Exact(lower) ==> grown <= old(grown) + 1
    {
      var i := 0;
      while i < |iter|
        invariant 0 <= i <= |iter|
        invariant Valid() && fresh(Repr() - old(Repr()))
        invariant Contents() == old(Contents()) + iter[..i]
        invariant cap == old(cap) || cap < 2 * (old(len) + |iter|)
        invariant Exact(lower) ==> grown == old(grown) || (grown == old(grown) + 1 && cap >= old(len) + |iter|)
      {
        var element := iter[i];
        i := i + 1;
        if len == cap {
          Reserve(lower[i - 1] + 1);
        }
        Push(element);
        assert iter[..i] == iter[..i - 1] + [element];
      }
      assert iter[..i] == iter;
    }

    /** `http_clear_buffer`: gives the memory back; the buffer can be used again. */
    method Release()
      requires Valid()
      modifies this
      ensures Valid() && Contents() == []
      ensures cap == 0 && buf == null && acquired == freed
      ensures acquired == old(acquired)
    {
      freed := freed + cap;
      copied := 0;
      len := 0;
      cap := 0;
      buf := null;
    }
  }

  // ---------- runs of operations ----------

  datatype Op =
    | ReserveOp(additional: nat)
    | PushOp(v: u8)
    | PushSliceOp(s: seq<u8>)
    | CopySliceOp(s: seq<u8>)
    | ExtendOp(s: seq<u8>, lower: seq<nat>)
    | ClearOp
    | ReleaseOp

  /** What a buffer is for: a byte sequence, and the longest one it has had to make room for since
      it last had no memory. */
  datatype Model = Model(contents: seq<u8>, peak: nat)

  function Max(a: nat, b: nat): nat {
    if a < b then b else a
  }

  function Apply(m: Model, op: Op): Model {
    match op
    case ReserveOp(n) => Model(m.contents, Max(m.peak, |m.contents| + n))
    case PushOp(v) => Model(m.contents + [v], Max(m.peak, |m.contents| + 1))
    case PushSliceOp(s) => Model(m.contents + s, Max(m.peak, |m.contents| + |s|))
    case CopySliceOp(s) => Model(s, Max(m.peak, |s|))
    case ExtendOp(s, _) => Model(m.contents + s, Max(m.peak, |m.contents| + |s|))
    case ClearOp => Model([], m.peak)
    case ReleaseOp => Model([], 0)
  }

  function ApplyAll(m: Model, ops: seq<Op>): Model {
    if ops == [] then m else Apply(ApplyAll(m, ops[..|ops| - 1]), ops[|ops| - 1])
  }

  /** The byte sequence a buffer holds, with its capacity below twice the peak. */
  ghost predicate Matches(b: Buffer, m: Model)
    reads b, b.buf
  {
    && b.Valid()
    && b.Contents() == m.contents
    && (b.cap < 2 * m.peak || b.cap == 0)
  }

  ghost predicate Sound(op: Op) {
    op.ExtendOp? ==> Hints(|op.s|, op.lower)
  }

  method Perform(b: Buffer, op: Op, ghost m: Model)
    requires Matches(b, m) && Sound(op)
    modifies b.Repr()
    ensures Matches(b, Apply(m, op)) && fresh(b.Repr() - old(b.Repr()))
  {
    match op
    case ReserveOp(n) => b.Reserve(n);
    case PushOp(v) => b.Push(v);
    case PushSliceOp(s) => b.PushSlice(s);
    case CopySliceOp(s) => b.CopySlice(s);
    case ExtendOp(s, lower) => b.Extend(s, lower);
    case ClearOp => b.Clear();
    case ReleaseOp => b.Release();
  }

  /** Any run of operations on a new buffer of any capacity. The contents are those of a byte sequence;
      the capacity stays below twice the longest sequence ever held, the bytes copied by all
      reallocations together stay within it, and everything allocated is either given back or
      still in use. Releasing the buffer afterwards leaves nothing allocated. */
  method Run(capacity: nat, ops: seq<Op>) returns (b: Buffer)
    requires forall op :: op in ops ==> Sound(op)
    ensures fresh(b.Repr()) && Matches(b, ApplyAll(Model([], capacity), ops))
    ensures b.copied <= b.cap
    ensures b.acquired - b.freed == b.cap
  {
    b := new Buffer(capacity);
    var i := 0;
    while i < |ops|
      invariant 0 <= i <= |ops|
      invariant fresh(b.Repr()) && Matches(b, ApplyAll(Model([], capacity), ops[..i]))
    {
      Perform(b, ops[i], ApplyAll(Model([], capacity), ops[..i]));
      assert ops[..i + 1][..i] == ops[..i];
      i := i + 1;
    }
    assert ops[..i] == ops;
  }
}
