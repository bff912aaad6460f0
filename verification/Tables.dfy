/** The header tables of HPACK (tables.rs): the dynamic table flattened into one byte deque, and its
    combination with the static table. */
module Tables {
  import opened Wrappers
  import opened Words
  import opened Buffers
  import opened StaticTable

  // ---------- the table as a sequence of fields ----------

  datatype Field = Field(name: seq<u8>, value: seq<u8>)

  const OVERHEAD: nat := 32

  /** The size of an entry in the sense of section 4.1 of RFC 7541. */
  function Size(f: Field): nat {
    |f.name| + |f.value| + OVERHEAD
  }

  function TotalSize(fs: seq<Field>): nat {
    if fs == [] then 0 else Size(fs[0]) + TotalSize(fs[1..])
  }

  /** A dynamic table: its fields, oldest first, the size it is limited to now, and the size it may
      be given. */
  datatype Table = Table(fields: seq<Field>, maxSize: usize, permittedSize: usize)

  ghost predicate Bounded(t: Table) {
    TotalSize(t.fields) <= t.maxSize <= t.permittedSize
  }

  /** The longest run of newest fields whose sizes add up to at most `room`. */
  function Newest(fs: seq<Field>, room: nat): seq<Field> {
    if TotalSize(fs) <= room then fs else Newest(fs[1..], room)
  }

  /** Section 4.4 of RFC 7541: the oldest fields make room; a field that does not fit empties the table. */
  function Inserted(t: Table, f: Field): Table {
    if Size(f) > t.maxSize then t.(fields := [])
    else t.(fields := Newest(t.fields, t.maxSize - Size(f)) + [f])
  }

  function Resized(t: Table, newSize: usize): Table {
    if newSize > t.permittedSize then t
    else t.(fields := Newest(t.fields, newSize), maxSize := newSize)
  }

  function Reset(t: Table, newSize: usize): Table {
    if t.fields != [] then t else Table([], newSize, newSize)
  }

  /** The i-th newest field, counting from 0. */
  function Recent(t: Table, i: nat): Option<Field> {
    if i < |t.fields| then Some(t.fields[|t.fields| - 1 - i]) else None
  }

  /** Index 0 is no field, 1 to 61 are the static table, the rest the dynamic table, newest first. */
  function FieldAt(t: Table, index: nat): Option<Field> {
    if index == 0 then None
    else if index <= STATIC_LEN then
      var entry := Static(index - 1);
      Some(Field(entry.name, match entry.value case Some(v) => v case None => []))
    else Recent(t, index - 62)
  }

  // ---------- eviction is minimal ----------

  lemma {:induction false} TotalSizeConcat(a: seq<Field>, b: seq<Field>)
    ensures TotalSize(a + b) == TotalSize(a) + TotalSize(b)
    decreases |a|
  {
    if a == [] {
      assert a + b == b;
    } else {
      assert (a + b)[1..] == a[1..] + b;
      TotalSizeConcat(a[1..], b);
    }
  }

  lemma OneField(f: Field)
    ensures TotalSize([f]) == Size(f) && Flatten([f]) == Image(f)
  {
    hide Image;
    assert Flatten([f]) == Image(f) + [];
  }

  lemma NoFields(fs: seq<Field>)
    ensures TotalSize(fs) == 0 <==> fs == []
  {
  }

  lemma NewestStep(fs: seq<Field>, room: nat)
    ensures TotalSize(fs) <= room ==> Newest(fs, room) == fs
    ensures TotalSize(fs) > room ==> fs != [] && Newest(fs, room) == Newest(fs[1..], room)
  {
  }

  /** What Newest keeps is a run of newest fields that fits, and no longer run fits. */
  lemma {:induction false} NewestMinimal(fs: seq<Field>, room: nat) returns (k: nat)
    ensures k <= |fs| && Newest(fs, room) == fs[k..]
    ensures TotalSize(fs[k..]) <= room
    ensures forall j :: 0 <= j < k ==> TotalSize(fs[j..]) > room
    decreases |fs|
  {
    if TotalSize(fs) <= room {
      k := 0;
    } else {
      var rest := NewestMinimal(fs[1..], room);
      k := rest + 1;
      assert fs[1..][rest..] == fs[k..];
      forall j | 0 <= j < k
        ensures TotalSize(fs[j..]) > room
      {
        if j == 0 {
          assert fs[0..] == fs;
        } else {
          assert fs[1..][j - 1..] == fs[j..];
        }
      }
    }
  }

  /** Insertion keeps exactly the fields that fit beside the new one. */
  lemma InsertMinimal(t: Table, f: Field) returns (k: nat)
    ensures Inserted(t, f).maxSize == t.maxSize && Inserted(t, f).permittedSize == t.permittedSize
    ensures k <= |t.fields|
    ensures Size(f) <= t.maxSize ==>
              && Inserted(t, f).fields == t.fields[k..] + [f]
              && TotalSize(t.fields[k..] + [f]) <= t.maxSize
              && forall j :: 0 <= j < k ==> TotalSize(t.fields[j..] + [f]) > t.maxSize
    ensures Size(f) > t.maxSize ==> Inserted(t, f).fields == []
  {
    hide Newest, TotalSize;
    k := 0;
    if Size(f) <= t.maxSize {
      k := NewestMinimal(t.fields, t.maxSize - Size(f));
      forall j | 0 <= j <= k
        ensures TotalSize(t.fields[j..] + [f]) == TotalSize(t.fields[j..]) + Size(f)
      {
        TotalSizeConcat(t.fields[j..], [f]);
        OneField(f);
      }
    }
  }

  /** A smaller room later keeps what the smaller room alone would have kept. */
  lemma {:induction false} NewestTwice(fs: seq<Field>, room: nat, less: nat)
    requires less <= room
    ensures Newest(Newest(fs, room), less) == Newest(fs, less)
    decreases |fs|
  {
    if TotalSize(fs) > room { NewestTwice(fs[1..], room, less); }
  }

  /** Of two permitted resizes in a row the smaller decides which fields stay and the later is the
      limit. */
  lemma ResizedTwice(t: Table, first: usize, second: usize)
    requires first <= t.permittedSize && second <= t.permittedSize
    ensures Resized(Resized(t, first), second)
         == t.(fields := Newest(t.fields, if first < second then first else second), maxSize := second)
  {
    hide TotalSize;
    if second <= first {
      NewestTwice(t.fields, first, second);
    } else {
      NewestFits(t.fields, first, second);
    }
  }

  function ResizedAll(t: Table, sizes: seq<usize>): Table {
    if sizes == [] then t else Resized(ResizedAll(t, sizes[..|sizes| - 1]), sizes[|sizes| - 1])
  }

  function Smallest(sizes: seq<usize>): (n: usize)
    requires sizes != []
    ensures n in sizes && forall size :: size in sizes ==> n <= size
  {
    var last := sizes[|sizes| - 1];
    if |sizes| == 1 then last
    else
      var before := Smallest(sizes[..|sizes| - 1]);
      assert sizes == sizes[..|sizes| - 1] + [last];
      if before < last then before else last
  }

  /** However many permitted resizes come in a row, the smallest decides which fields stay and the last
      is the limit: a decoder that is told only those two keeps the same table (section 4.2 of RFC 7541). */
  lemma {:induction false} ResizedSmallest(t: Table, sizes: seq<usize>)
    requires sizes != [] && forall size :: size in sizes ==> size <= t.permittedSize
    ensures ResizedAll(t, sizes)
         == t.(fields := Newest(t.fields, Smallest(sizes)), maxSize := sizes[|sizes| - 1])
    ensures ResizedAll(t, sizes) == Resized(Resized(t, Smallest(sizes)), sizes[|sizes| - 1])
    decreases |sizes|
  {
    hide Newest;
    var before, last := sizes[..|sizes| - 1], sizes[|sizes| - 1];
    assert last in sizes && forall size :: size in before ==> size in sizes;
    ResizedTwice(t, Smallest(sizes), last);
    if before == [] {
      assert ResizedAll(t, before) == t;
    } else {
      ResizedSmallest(t, before);
      ResizedTwice(t, Smallest(before), last);
    }
  }

  /** What a smaller room has kept a larger one keeps. */
  lemma NewestFits(fs: seq<Field>, room: nat, more: nat)
    requires room <= more
    ensures Newest(Newest(fs, room), more) == Newest(fs, room)
  {
    var k := NewestMinimal(fs, room);
  }

  // ---------- runs of insertions, and the order of indices ----------

  function InsertedAll(t: Table, fs: seq<Field>): Table {
    if fs == [] then t else Inserted(InsertedAll(t, fs[..|fs| - 1]), fs[|fs| - 1])
  }

  lemma {:induction false} NewestSnoc(fs: seq<Field>, f: Field, room: nat)
    requires Size(f) <= room
    ensures Newest(fs + [f], room) == Newest(fs, room - Size(f)) + [f]
    decreases |fs|
  {
    hide Size;
    TotalSizeConcat(fs, [f]);
    OneField(f);
    NewestStep(fs, room - Size(f));
    NewestStep(fs + [f], room);
    if TotalSize(fs) > room - Size(f) {
      assert (fs + [f])[1..] == fs[1..] + [f];
      NewestSnoc(fs[1..], f, room);
    }
  }

  /** Fields that each fit, inserted one after another, leave the newest of them all that fit together,
      under the same limits. */
  lemma {:induction false} InsertionRun(t: Table, fs: seq<Field>)
    requires TotalSize(t.fields) <= t.maxSize
    requires forall f :: f in fs ==> Size(f) <= t.maxSize
    ensures InsertedAll(t, fs) == t.(fields := Newest(t.fields + fs, t.maxSize))
    decreases |fs|
  {
    hide Newest, TotalSize, Size;
    if fs == [] {
      assert t.fields + fs == t.fields;
      NewestStep(t.fields, t.maxSize);
    } else {
      var front, f := fs[..|fs| - 1], fs[|fs| - 1];
      assert f in fs && forall g :: g in front ==> g in fs;
      InsertionRun(t, front);
      NewestTwice(t.fields + front, t.maxSize, t.maxSize - Size(f));
      NewestSnoc(t.fields + front, f, t.maxSize);
      assert t.fields + front + [f] == t.fields + fs;
    }
  }

  /** Index 62 is the field inserted last, and every index from there on moves up by one; what was
      evicted has no index. */
  lemma IndexAfterInsertion(t: Table, f: Field, i: nat)
    requires Size(f) <= t.maxSize
    ensures FieldAt(Inserted(t, f), 62) == Some(f)
    ensures FieldAt(Inserted(t, f), 63 + i)
         == if i + 1 < |Inserted(t, f).fields| then FieldAt(t, 62 + i) else None
    ensures FieldAt(t.(fields := []), 62 + i) == None
  {
    hide Newest, Size, TotalSize;
    var k := InsertMinimal(t, f);
    assert Inserted(t, f).fields == t.fields[k..] + [f];
  }

  /** After a run of insertions index 62 + i is the field inserted i before the last. */
  lemma IndexAfterRun(t: Table, fs: seq<Field>, i: nat)
    requires TotalSize(t.fields + fs) <= t.maxSize && i < |fs|
    ensures FieldAt(InsertedAll(t, fs), 62 + i) == Some(fs[|fs| - 1 - i])
  {
    hide Newest, Size, TotalSize;
    TotalSizeConcat(t.fields, fs);
    forall j | 0 <= j < |fs|
      ensures Size(fs[j]) <= t.maxSize
    {
      SizeWithin(fs, j);
    }
    InsertionRun(t, fs);
    NewestStep(t.fields + fs, t.maxSize);
  }

  lemma SizeWithin(fs: seq<Field>, j: nat)
    requires j < |fs|
    ensures Size(fs[j]) <= TotalSize(fs)
  {
    hide Size, TotalSize, Flatten, Image;
    OneField(fs[j]);
    TotalSizeConcat(fs[..j], [fs[j]]);
    TotalSizeConcat(fs[..j] + [fs[j]], fs[j + 1..]);
    assert fs == fs[..j] + [fs[j]] + fs[j + 1..];
  }

  // ---------- runs of operations ----------

  datatype TableOp = InsertOp(f: Field) | ResizeOp(newSize: usize) | ResetOp(newSize: usize)

  function Step(t: Table, op: TableOp): Table {
    match op
    case InsertOp(f) => Inserted(t, f)
    case ResizeOp(n) => Resized(t, n)
    case ResetOp(n) => Reset(t, n)
  }

  function RunOps(t: Table, ops: seq<TableOp>): Table
    decreases |ops|
  {
    if ops == [] then t else RunOps(Step(t, ops[0]), ops[1..])
  }

  lemma StepBounded(t: Table, op: TableOp)
    requires Bounded(t)
    ensures Bounded(Step(t, op))
  {
    match op
    case InsertOp(f) => var k := InsertMinimal(t, f);
    case ResizeOp(n) => var k := NewestMinimal(t.fields, n);
    case ResetOp(n) =>
  }

  /** Whatever is done to a table, it stays within its limit and the limit within what is permitted. */
  lemma {:induction false} RunBounded(t: Table, ops: seq<TableOp>)
    requires Bounded(t)
    ensures Bounded(RunOps(t, ops))
    decreases |ops|
  {
    if ops != [] {
      StepBounded(t, ops[0]);
      RunBounded(Step(t, ops[0]), ops[1..]);
    }
  }

  // ---------- the bytes of the deque ----------

  /** One entry: its size, the two lengths, name, value, and the size again. */
  function Image(f: Field): (s: seq<u8>)
    ensures |s| == Size(f)
  {
    ToLE(Size(f), 8) + ToLE(|f.name|, 8) + ToLE(|f.value|, 8) + f.name + f.value + ToLE(Size(f), 8)
  }

  function Flatten(fs: seq<Field>): (s: seq<u8>)
    ensures |s| == TotalSize(fs)
  {
    if fs == [] then [] else Image(fs[0]) + Flatten(fs[1..])
  }

  lemma {:induction false} FlattenConcat(a: seq<Field>, b: seq<Field>)
    ensures Flatten(a + b) == Flatten(a) + Flatten(b)
    decreases |a|
  {
    if a == [] {
      assert a + b == b;
    } else {
      assert (a + b)[1..] == a[1..] + b;
      FlattenConcat(a[1..], b);
    }
  }

  /** `get_size`: the eight bytes at an offset as a little-endian number. */
  function SizeIn(buffer: seq<u8>, offset: nat): nat
    requires offset + 8 <= |buffer|
  {
    FromLE(buffer[offset..offset + 8])
  }

  lemma WordRoundTrip(n: nat)
    requires n < TWO_64
    ensures FromLE(ToLE(n, 8)) == n
  {
    assert Pow256(8) == TWO_64;
    FromToLE(n, 8);
  }

  /** Every part of an entry is found where the deque's readers look for it. */
  lemma ImageParts(before: seq<u8>, f: Field, after: seq<u8>)
    requires Size(f) < TWO_64
    ensures var b := before + Image(f) + after;
            var at := |before|;
            && SizeIn(b, at) == Size(f)
            && SizeIn(b, at + 8) == |f.name|
            && SizeIn(b, at + 16) == |f.value|
            && b[at + 24..at + 24 + |f.name|] == f.name
            && b[at + 24 + |f.name|..at + 24 + |f.name| + |f.value|] == f.value
            && SizeIn(b, at + Size(f) - 8) == Size(f)
  {
    hide ToLE, FromLE;
    WordRoundTrip(Size(f));
    WordRoundTrip(|f.name|);
    WordRoundTrip(|f.value|);
    SixParts(before, ToLE(Size(f), 8), ToLE(|f.name|, 8), ToLE(|f.value|, 8), f.name, f.value, after);
  }

  /** Words, a name, a value and the first word again, between other bytes. */
  lemma SixParts(before: seq<u8>, a: seq<u8>, b: seq<u8>, c: seq<u8>, name: seq<u8>, value: seq<u8>, after: seq<u8>)
    requires |a| == |b| == |c| == 8
    ensures var s := before + (a + b + c + name + value + a) + after;
            var at, end := |before|, |before| + 32 + |name| + |value|;
            && s[at..at + 8] == a && s[at + 8..at + 16] == b && s[at + 16..at + 24] == c
            && s[at + 24..at + 24 + |name|] == name
            && s[at + 24 + |name|..at + 24 + |name| + |value|] == value
            && s[end - 8..end] == a
  {
    var s := before + (a + b + c + name + value + a) + after;
    var rest := s[|before|..];
    assert rest == a + b + c + name + value + a + after;
  }

  lemma FlattenAround(front: seq<Field>, f: Field, back: seq<Field>)
    ensures Flatten(front + [f] + back) == Flatten(front) + Image(f) + Flatten(back)
    ensures TotalSize(front + [f]) == TotalSize(front) + Size(f)
    ensures TotalSize(front + [f] + back) == TotalSize(front) + Size(f) + TotalSize(back)
  {
    hide Flatten, TotalSize, Image, Size;
    OneField(f);
    TotalSizeConcat(front, [f]);
    TotalSizeConcat(front + [f], back);
    FlattenConcat(front, [f]);
    FlattenConcat(front + [f], back);
  }

  /** The k-th entry of a flattened table, between the older and the newer ones. */
  lemma FlattenParts(fs: seq<Field>, k: nat)
    requires k < |fs| && TotalSize(fs) < TWO_64
    ensures Size(fs[k]) < TWO_64
    ensures TotalSize(fs[..k + 1]) == TotalSize(fs[..k]) + Size(fs[k])
    ensures Flatten(fs) == Flatten(fs[..k]) + Image(fs[k]) + Flatten(fs[k + 1..])
  {
    hide Flatten, TotalSize, Image, Size;
    var front, f, back := fs[..k], fs[k], fs[k + 1..];
    FlattenAround(front, f, back);
    assert fs[..k + 1] == front + [f];
    assert fs == fs[..k + 1] + back;
  }

  lemma FlattenFront(fs: seq<Field>)
    requires fs != []
    ensures Flatten(fs) == Image(fs[0]) + Flatten(fs[1..])
    ensures TotalSize(fs) == Size(fs[0]) + TotalSize(fs[1..])
  {
  }

  /** What is read at the front of the deque, and what remains behind the oldest entry. */
  lemma FrontParts(fs: seq<Field>)
    requires fs != [] && TotalSize(fs) < TWO_64
    ensures OVERHEAD <= Size(fs[0]) <= |Flatten(fs)|
    ensures SizeIn(Flatten(fs), 0) == Size(fs[0])
    ensures Flatten(fs)[Size(fs[0])..] == Flatten(fs[1..])
    ensures TotalSize(fs) == Size(fs[0]) + TotalSize(fs[1..])
  {
    hide SizeIn, Image, Flatten, TotalSize;
    FlattenFront(fs);
    ImageParts([], fs[0], Flatten(fs[1..]));
    assert [] + Image(fs[0]) == Image(fs[0]);
  }

  /** What the backward walk reads when it stands at the end of the k-th entry. */
  lemma WalkBack(fs: seq<Field>, k: nat)
    requires k < |fs| && TotalSize(fs) < TWO_64
    ensures var b := Flatten(fs);
            var end := TotalSize(fs[..k + 1]);
            && OVERHEAD <= end <= |b|
            && SizeIn(b, end - 8) == Size(fs[k])
            && end - Size(fs[k]) == TotalSize(fs[..k])
  {
    hide Flatten, TotalSize, Image, SizeIn;
    FlattenParts(fs, k);
    ImageParts(Flatten(fs[..k]), fs[k], Flatten(fs[k + 1..]));
  }

  /** What is read at the start of the k-th entry. */
  lemma EntryParts(fs: seq<Field>, k: nat)
    requires k < |fs| && TotalSize(fs) < TWO_64
    ensures var b := Flatten(fs);
            var at := TotalSize(fs[..k]);
            var name, value := fs[k].name, fs[k].value;
            && at + OVERHEAD + |name| + |value| <= |b|
            && SizeIn(b, at + 8) == |name|
            && SizeIn(b, at + 16) == |value|
            && b[at + 24..at + 24 + |name|] == name
            && b[at + 24 + |name|..at + 24 + |name| + |value|] == value
  {
    hide Flatten, TotalSize, Image, SizeIn;
    FlattenParts(fs, k);
    ImageParts(Flatten(fs[..k]), fs[k], Flatten(fs[k + 1..]));
  }

  datatype ErrorCode = NoError | CompressionError

  class DynamicTable {
    var buffer: seq<u8>
    var maxSize: usize
    var permittedSize: usize
    var numElements: nat
    ghost var fields: seq<Field>

    /** The deque is the flattened fields, oldest first. */
    ghost predicate Valid()
      reads this
    {
      && buffer == Flatten(fields)
      && numElements == |fields|
      && Bounded(Abstract())
    }

    ghost function Abstract(): Table
      reads this
    {
      Table(fields, maxSize, permittedSize)
    }

    constructor (maxPermittedSize: usize)
      ensures Valid() && Abstract() == Table([], maxPermittedSize, maxPermittedSize)
    {
      buffer := [];
      maxSize := maxPermittedSize;
      permittedSize := maxPermittedSize;
      numElements := 0;
      fields := [];
    }

    /** Drops the oldest entry. */
    method Evict()
      requires Valid() && fields != []
      modifies this
      ensures Valid() && Abstract() == old(Abstract()).(fields := old(fields)[1..])
    {
      hide Flatten, TotalSize, Image, SizeIn;
      FrontParts(fields);
      var size := SizeIn(buffer, 0);
      buffer := buffer[size..];
      numElements := numElements - 1;
      fields := fields[1..];
    }

    method ResetPermissibleSize(newSize: usize) returns (code: ErrorCode)
      requires Valid()
      modifies this
      ensures Valid() && Abstract() == Reset(old(Abstract()), newSize)
      ensures old(fields) == [] ==> fields == [] && maxSize == permittedSize == newSize
      ensures old(fields) != [] ==> Abstract() == old(Abstract())
      ensures code == if old(fields) != [] then CompressionError else NoError
    {
      if numElements != 0 {
        return CompressionError;
      }
      buffer := [];
      maxSize := newSize;
      permittedSize := newSize;
      return NoError;
    }

    method Resize(newSize: usize)
      requires Valid()
      modifies this
      ensures Valid() && Abstract() == Resized(old(Abstract()), newSize)
      ensures permittedSize == old(permittedSize)
      ensures newSize <= permittedSize ==> maxSize == newSize
      ensures newSize > permittedSize ==> Abstract() == old(Abstract())
    {
      if newSize > permittedSize {
        return;
      }
      while |buffer| > newSize
        invariant Valid() && maxSize == old(maxSize) && permittedSize == old(permittedSize)
        invariant Newest(fields, newSize) == Newest(old(fields), newSize)
        decreases numElements
      {
        Evict();
      }
      maxSize := newSize;
    }

    method Insert(name: seq<u8>, value: seq<u8>)
      requires Valid()
      modifies this
      ensures Valid() && Abstract() == Inserted(old(Abstract()), Field(name, value))
      ensures maxSize == old(maxSize) && permittedSize == old(permittedSize)
    {
      hide ToLE, Flatten, Newest, TotalSize, FromLE;
      ghost var f := Field(name, value);
      var size := |name| + |value| + 32;
      while |buffer| + size > maxSize
        invariant Valid() && maxSize == old(maxSize) && permittedSize == old(permittedSize)
        invariant size <= maxSize ==> Newest(fields, maxSize - size) == Newest(old(fields), maxSize - size)
        decreases numElements
      {
        NoFields(fields);
        if |buffer| == 0 {
          return;
        }
        if size <= maxSize {
          NewestStep(fields, maxSize - size);
        }
        Evict();
      }
      NewestStep(fields, maxSize - size);
      FlattenConcat(fields, [f]);
      TotalSizeConcat(fields, [f]);
      OneField(f);
      ghost var before := buffer;
      buffer := buffer + ToLE(size, 8);
      buffer := buffer + ToLE(|name|, 8);
      buffer := buffer + ToLE(|value|, 8);
      buffer := buffer + name;
      buffer := buffer + value;
      buffer := buffer + ToLE(size, 8);
      numElements := numElements + 1;
      fields := fields + [f];
      assert buffer == before + Image(f);
    }

    /** Walks back from the newest entry, an entry at a time, by the sizes at their ends. */
    method Get(index: nat) returns (r: Option<(seq<u8>, seq<u8>)>)
      requires Valid()
      ensures r == match Recent(Abstract(), index)
                   case None => None
                   case Some(f) => Some((f.name, f.value))
      ensures r.Some? <==> index < |fields|
      ensures r.Some? ==> Field(r.value.0, r.value.1) == fields[|fields| - 1 - index]
    {
      hide Flatten, TotalSize, Image, SizeIn;
      if index >= numElements {
        return None;
      }
      var offset := |buffer|;
      assert fields[..numElements] == fields;
      for i := 0 to index
        invariant offset == TotalSize(fields[..numElements - i])
      {
        WalkBack(fields, numElements - 1 - i);
        offset := offset - SizeIn(buffer, offset - 8);
      }
      WalkBack(fields, numElements - 1 - index);
      offset := offset - SizeIn(buffer, offset - 8);
      EntryParts(fields, numElements - 1 - index);
      var nameSize := SizeIn(buffer, offset + 8);
      var valueSize := SizeIn(buffer, offset + 16);
      offset := offset + 24;
      var name := buffer[offset..offset + nameSize];
      offset := offset + nameSize;
      var value := buffer[offset..offset + valueSize];
      return Some((name, value));
    }
  }

  /** The dynamic table behind the static one. */
  class HeaderTable {
    const dynamic: DynamicTable

    constructor (maxTableSize: usize)
      ensures fresh(dynamic) && dynamic.Valid()
      ensures dynamic.Abstract() == Table([], maxTableSize, maxTableSize)
    {
      dynamic := new DynamicTable(maxTableSize);
    }

    /** Appends the name, and the value if a buffer for it is given, of the field at an index. */
    method Get(index: nat, name: Buffer, value: Buffer?) returns (r: Result<(), ()>)
      requires dynamic.Valid() && name.Valid()
      requires value != null ==> value.Valid() && name.Repr() !! value.Repr()
      modifies name.Repr(), if value == null then {} else value.Repr()
      ensures name.Valid() && fresh(name.Repr() - old(name.Repr()))
      ensures value != null ==> value.Valid() && fresh(value.Repr() - old(value.Repr())) && name.Repr() !! value.Repr()
      ensures dynamic.Valid() && dynamic.Abstract() == old(dynamic.Abstract())
      ensures r.Ok? <==> FieldAt(dynamic.Abstract(), index).Some?
      ensures r.Ok? ==> name.Contents() == old(name.Contents()) + FieldAt(dynamic.Abstract(), index).value.name
      ensures r.Ok? && value != null ==>
                value.Contents() == old(value.Contents()) + FieldAt(dynamic.Abstract(), index).value.value
    {
      hide Static, Flatten, TotalSize, Newest, Image, Bounded, Hints, Exact;
      hide Buffer.Contents, Buffer.Valid;
      if index == 0 {
        return Err(());
      } else if index <= 61 {
        var entry := Static(index - 1);
        name.PushSlice(entry.name);
        if value != null && entry.value.Some? {
          value.PushSlice(entry.value.value);
        }
        return Ok(());
      } else {
        var found := dynamic.Get(index - 62);
        if found.None? {
          return Err(());
        }
        var (n, v) := found.value;
        name.Extend(n, ExactHints(|n|));
        if value != null {
          value.Extend(v, ExactHints(|v|));
        }
        return Ok(());
      }
    }
  }
}
