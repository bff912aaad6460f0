/** The hashed lookup of a field's static-table index (context.rs). */
module StaticIndex {
  import opened Wrappers
  import opened Words
  import opened StaticTable
  import opened SipHash
  import opened HeaderHashes
  import Tables

  const MAX_HEADER_LENGTH: nat := 27
  const MAX_PROBE: nat := 3
  const MAX_CHECK_LEN: nat := 5

  /** The first static-table entry that is not a request pseudo-header. */
  const FIRST: nat := 7

  // ---------- what the index should be ----------

  /** The first position from j on whose entry has the name, and the value if one is asked for. */
  function Scan(j: nat, name: seq<u8>, value: Option<seq<u8>>): (r: Option<nat>)
    requires j <= STATIC_LEN
    ensures r.Some? ==> j <= r.value < STATIC_LEN && Matches(r.value, name, value)
    ensures r.Some? ==> forall k :: j <= k < r.value ==> !Matches(k, name, value)
    ensures r.None? ==> forall k :: j <= k < STATIC_LEN ==> !Matches(k, name, value)
    decreases STATIC_LEN - j
  {
    if j == STATIC_LEN then None
    else if Matches(j, name, value) then Some(j)
    else Scan(j + 1, name, value)
  }

  predicate Matches(j: nat, name: seq<u8>, value: Option<seq<u8>>)
    requires j < STATIC_LEN
  {
    Static(j).name == name && (value.Some? ==> Static(j).value == value)
  }

  /** The index of the entry with this name and value if there is one, else of the first entry with
      this name; index 1 is position 0. */
  function BestIndex(name: seq<u8>, value: seq<u8>): Option<nat> {
    match Scan(FIRST, name, Some(value))
    case Some(j) => Some(j + 1)
    case None =>
      match Scan(FIRST, name, None)
      case Some(j) => Some(j + 1)
      case None => None
  }

  // ---------- the lookup ----------

  /** The probe's quick test: the first few bytes agree. */
  predicate StartsAlike(a: seq<u8>, b: seq<u8>) {
    forall i :: 0 <= i < |a| && i < |b| && i < MAX_CHECK_LEN ==> a[i] == b[i]
  }

  /** Probing from h, the name's own place in the map is the first that starts like the name. */
  ghost predicate Placed(h: nat, name: seq<u8>, p: nat)
    requires h < HEADER_MAP_SIZE && p < HEADER_MAP_SIZE
  {
    exists d: nat ::
      d < MAX_PROBE && (h + d) % HEADER_MAP_SIZE == p && ProbeName(h, d) == name && FirstAlike(h, name, d)
  }

  /** The name met at the d-th probe. */
  function ProbeName(h: nat, d: nat): seq<u8> {
    HeaderMap((h + d) % HEADER_MAP_SIZE).0
  }

  /** The probes before the d-th do not start like the name. */
  ghost predicate FirstAlike(h: nat, name: seq<u8>, d: nat) {
    forall e: nat :: e < d ==> !StartsAlike(name, ProbeName(h, e))
  }

  /** `find_index` after the hash: at most three probes, stopping at the first that starts alike. */
  method Probe(h: nat, header: seq<u8>) returns (r: Option<nat>)
    requires h < HEADER_MAP_SIZE
    ensures r.Some? ==> r.value < HEADER_MAP_SIZE && HeaderMap(r.value).0 == header
    ensures forall p :: 0 <= p < HEADER_MAP_SIZE && HeaderMap(p).0 == header && Placed(h, header, p) ==> r.Some?
  {
    hide HeaderMap;
    var d := 0;
    while d < MAX_PROBE
      invariant 0 <= d <= MAX_PROBE
      invariant FirstAlike(h, header, d)
    {
      var index := (h + d) % HEADER_MAP_SIZE;
      var entry := HeaderMap(index).0;
      var i := 0;
      var alike := true;
      while i < |header| && i < |entry| && i < MAX_CHECK_LEN
        invariant 0 <= i && alike
        invariant forall k :: 0 <= k < i && k < |header| && k < |entry| ==> header[k] == entry[k]
      {
        if header[i] != entry[i] {
          alike := false;
          break;
        }
        i := i + 1;
      }
      assert entry == ProbeName(h, d);
      if !alike {
        assert !StartsAlike(header, entry);
        d := d + 1;
        continue;
      }
      ProbeStops(h, header, d);
      return if entry == header then Some(index) else None;
    }
    ProbesFail(h, header);
    return None;
  }

  lemma ProbesFail(h: nat, header: seq<u8>)
    requires h < HEADER_MAP_SIZE && FirstAlike(h, header, MAX_PROBE)
    ensures forall p :: 0 <= p < HEADER_MAP_SIZE && HeaderMap(p).0 == header ==> !Placed(h, header, p)
  {
    hide HeaderMap;
    assert StartsAlike(header, header);
    assert forall e: nat :: e < MAX_PROBE ==> ProbeName(h, e) != header;
  }

  /** The probe that starts alike decides: a placed name is there or nowhere. */
  lemma ProbeStops(h: nat, header: seq<u8>, d: nat)
    requires h < HEADER_MAP_SIZE && d < MAX_PROBE
    requires FirstAlike(h, header, d) && StartsAlike(header, ProbeName(h, d))
    ensures forall p :: 0 <= p < HEADER_MAP_SIZE && HeaderMap(p).0 == header && Placed(h, header, p) ==>
              p == (h + d) % HEADER_MAP_SIZE
  {
    hide HeaderMap;
    forall p | 0 <= p < HEADER_MAP_SIZE && HeaderMap(p).0 == header && Placed(h, header, p)
      ensures p == (h + d) % HEADER_MAP_SIZE
    {
      var e: nat :| e < MAX_PROBE && (h + e) % HEADER_MAP_SIZE == p && FirstAlike(h, header, e);
      assert StartsAlike(header, ProbeName(h, e));
      assert !(e < d) && !(d < e);
    }
  }

  /** Every occurrence of the name in the map is where the probes from h find it. */
  ghost predicate WellPlaced(h: nat, name: seq<u8>)
    requires h < HEADER_MAP_SIZE
  {
    forall p :: 0 <= p < HEADER_MAP_SIZE && HeaderMap(p).0 == name ==> Placed(h, name, p)
  }

  /** The lookup of a name whose hash lands at h: never a wrong index, and the right one whenever the
      name is well placed. */
  method Lookup(h: nat, name: seq<u8>, value: seq<u8>) returns (r: Option<nat>)
    requires h < HEADER_MAP_SIZE && 0 < |name| <= MAX_HEADER_LENGTH
    ensures r.Some? ==> r == BestIndex(name, value)
    ensures WellPlaced(h, name) ==> r == BestIndex(name, value)
  {
    hide HeaderMap, Static, MapPosition, Placed, Scan, FirstOf, BestIndex;
    var found := Probe(h, name);
    if found.None? {
      if WellPlaced(h, name) {
        UnknownName(name, value);
      }
      return None;
    }
    MapName(found.value);
    var index := HeaderMap(found.value).1;
    KnownName(index, name, value);
    if Static(index).value.None? {
      return Some(index + 1);
    }
    var testIndex := index;
    while Static(testIndex).name == name
      invariant index <= testIndex < STATIC_LEN
      invariant forall k :: index <= k < testIndex ==> !Matches(k, name, Some(value)) && Static(k).name == name
      decreases STATIC_LEN - testIndex
    {
      if Static(testIndex).value == Some(value) {
        ExactHere(index, testIndex, name, value);
        return Some(testIndex + 1);
      }
      RunEnds(index, testIndex, name);
      testIndex := testIndex + 1;
    }
    NoExact(index, testIndex, name, value);
    return Some(index + 1);
  }

  /** `get_static_header_index`: never a wrong index, whatever the hash's round counts, and with the
      program's, 2 and 4, always the right one. */
  method GetStaticHeaderIndex(hash: Hasher, name: seq<u8>, value: seq<u8>) returns (r: Option<nat>)
    requires hash.dgstBuf.Length == 8
    modifies hash, hash.dgstBuf
    ensures r.Some? ==> r == BestIndex(name, value)
    ensures WellPlaced(Landing(hash.C, hash.D, name), name) ==> r == BestIndex(name, value)
    ensures hash.C == 2 && hash.D == 4 ==> r == BestIndex(name, value)
  {
    hide HeaderMap, Static, MapPosition, FirstOf, BestIndex, WellPlaced, Hash, Hasher.Valid;
    AllPlaced(name);
    if |name| == 0 {
      UnknownName(name, value);
      return None;
    }
    if |name| > MAX_HEADER_LENGTH {
      UnknownName(name, value);
      return None;
    }
    hash.Init(HEADER_MAP_KEY);
    hash.Add([|name| % 0x100]);
    hash.Add(name);
    var digest := hash.Digest();
    assert [] + [|name| % 0x100] + name == [|name| % 0x100] + name;
    r := Lookup(digest as int % HEADER_MAP_SIZE, name, value);
  }

  /** A name that is not in the map is nowhere from FIRST on. */
  lemma UnknownName(name: seq<u8>, value: seq<u8>)
    requires forall p :: 0 <= p < HEADER_MAP_SIZE && |name| <= MAX_HEADER_LENGTH ==>
                         HeaderMap(p).0 != name || |name| == 0
    ensures BestIndex(name, value) == None
  {
    hide HeaderMap, Static, MapPosition, FirstOf;
    forall j | FIRST <= j < STATIC_LEN
      ensures Static(j).name != name
    {
      NameKey(j);
      InMap(j);
    }
  }

  /** The map's entry for a name is the first with it; without a value it is the only one. */
  lemma KnownName(index: nat, name: seq<u8>, value: seq<u8>)
    requires FIRST <= index < STATIC_LEN && FirstOf(index) == index && Static(index).name == name
    ensures Scan(FIRST, name, None) == Some(index)
    ensures Static(index).value.None? ==> BestIndex(name, value) == Some(index + 1)
  {
    hide Static;
    forall j | FIRST <= j < STATIC_LEN && Static(j).name == name
      ensures j >= index && (Static(index).value.None? ==> j == index)
    {
      SameName(j, index);
      assert Matches(j, name, None);
      if index == 7 { StatusRun(7); }
    }
    assert Matches(index, name, None);
  }

  /** The run of entries with one name ends inside the table. */
  lemma RunEnds(index: nat, j: nat, name: seq<u8>)
    requires FIRST <= index <= j < STATIC_LEN && FirstOf(index) == index && Static(index).value.Some?
    requires Static(index).name == name == Static(j).name
    ensures j + 1 < STATIC_LEN
  {
    hide Static;
    SameName(j, index);
    if index >= 14 { Values(index); }
  }

  /** The first exact match of the run is the first from FIRST on. */
  lemma ExactHere(index: nat, j: nat, name: seq<u8>, value: seq<u8>)
    requires FIRST <= index <= j < STATIC_LEN && Scan(FIRST, name, None) == Some(index)
    requires Matches(j, name, Some(value))
    requires forall k :: index <= k < j ==> !Matches(k, name, Some(value))
    ensures BestIndex(name, value) == Some(j + 1)
  {
    hide Static;
    forall k | FIRST <= k < index
      ensures !Matches(k, name, Some(value))
    {
      assert !Matches(k, name, None);
    }
  }

  /** When the run has no exact match, there is none. */
  lemma NoExact(index: nat, end: nat, name: seq<u8>, value: seq<u8>)
    requires FIRST <= index <= end < STATIC_LEN && FirstOf(index) == index && Static(index).name == name
    requires Static(index).value.Some? && Static(end).name != name
    requires Scan(FIRST, name, None) == Some(index)
    requires forall k :: index <= k < end ==> !Matches(k, name, Some(value))
    ensures BestIndex(name, value) == Some(index + 1)
  {
    hide Static;
    forall k | FIRST <= k < STATIC_LEN
      ensures !Matches(k, name, Some(value))
    {
      if Static(k).name == name {
        SameName(k, index);
        assert index != end;
        if index == 7 && end <= 13 { StatusRun(end); }
      }
    }
  }

  // ---------- where the program's hash puts the names ----------

  /** Every name, under the program's key and round counts, is where the probes look for it. */
  lemma AllPlaced(name: seq<u8>)
    ensures WellPlaced(Landing(2, 4, name), name)
  {
    hide HeaderMap, Landing, Placed;
    forall p | 0 <= p < HEADER_MAP_SIZE && HeaderMap(p).0 == name
      ensures Placed(Landing(2, 4, name), name, p)
    {
      MapPlaced(p);
    }
  }

  lemma MapPlaced(p: nat)
    requires p < HEADER_MAP_SIZE
    ensures Placed(Landing(2, 4, HeaderMap(p).0), HeaderMap(p).0, p)
  {
    hide HeaderMap, Landing, StartsAlike, Distance;
    Landings(p);
    var d, name := Distance(p), HeaderMap(p).0;
    var h := p - d;
    assert (h + d) % HEADER_MAP_SIZE == p;
    forall e: nat | e < d
      ensures !StartsAlike(name, ProbeName(h, e))
    {
      assert (h + e) % HEADER_MAP_SIZE == h + e;
      StartsOtherwise(p, d - e);
    }
    assert FirstAlike(h, name, d) && ProbeName(h, d) == name;
    assert d < MAX_PROBE by { DistanceBound(p); }
  }

  lemma DistanceBound(p: nat)
    ensures Distance(p) < MAX_PROBE
  {
  }

  /** A name that probing passes over on the way to another starts otherwise. */
  lemma StartsOtherwise(p: nat, back: nat)
    requires p < HEADER_MAP_SIZE && 1 <= back <= Distance(p) <= p
    ensures !StartsAlike(HeaderMap(p).0, HeaderMap(p - back).0)
  {
    hide HeaderMap, Ascii, Distance, StartsAlike;
    if {
      case p < 16 => Otherwise0(p, back);
      case 16 <= p < 32 => Otherwise16(p, back);
      case 32 <= p => Otherwise32(p, back);
    }
  }

  // ---------- what the index means to a decoder ----------

  /** The index stands for the field itself if any non-request index does, and then is the first that
      does; else for the first field with the name; and there is none exactly if no field has the name. */
  lemma IndexMeans(t: Tables.Table, name: seq<u8>, value: seq<u8>)
    ensures var best := BestIndex(name, value);
            && (best == None <==> forall k :: 8 <= k <= 61 ==> Tables.FieldAt(t, k).value.name != name)
            && (best.Some? ==> 8 <= best.value <= 61 && Tables.FieldAt(t, best.value).value.name == name)
            && (best.Some? && Indexable(t, name, value) ==>
                  && Tables.FieldAt(t, best.value) == Some(Tables.Field(name, value))
                  && forall k :: 8 <= k < best.value ==> Tables.FieldAt(t, k) != Some(Tables.Field(name, value)))
            && (best.Some? && !Indexable(t, name, value) ==>
                  forall k :: 8 <= k < best.value ==> Tables.FieldAt(t, k).value.name != name)
  {
    hide Static, Scan;
    forall k | 8 <= k <= 61
      ensures Tables.FieldAt(t, k).value.name == Static(k - 1).name
      ensures value != [] ==>
                (Tables.FieldAt(t, k) == Some(Tables.Field(name, value)) <==> Matches(k - 1, name, Some(value)))
      ensures !Matches(k - 1, name, Some([]))
    {
      NoEmptyValue(k - 1);
    }
    var exact, first := Scan(FIRST, name, Some(value)), Scan(FIRST, name, None);
    assert forall j :: FIRST <= j < STATIC_LEN ==> Tables.FieldAt(t, j + 1).value.name == Static(j).name;
    if exact.Some? {
      assert Matches(exact.value, name, Some(value));
      assert value != [];
      assert Tables.FieldAt(t, exact.value + 1) == Some(Tables.Field(name, value));
    }
    forall k | 8 <= k <= 61 && Tables.FieldAt(t, k).value.name == name
      ensures Matches(k - 1, name, None)
    {
    }
  }

  /** A non-request entry is the field, value and all. */
  ghost predicate Indexable(t: Tables.Table, name: seq<u8>, value: seq<u8>) {
    value != [] && exists k :: 8 <= k <= 61 && Tables.FieldAt(t, k) == Some(Tables.Field(name, value))
  }

  lemma NoEmptyValue(j: nat)
    requires 7 <= j < STATIC_LEN
    ensures Static(j).value != Some([])
  {
    hide Ascii;
  }

  // ---------- facts about the tables ----------

  /** Where the map has the name of a static entry. */
  function MapPosition(j: nat): nat {
    if j < 8 then 28 else if j < 9 then 28 else if j < 10 then 28 else if j < 11 then 28 else
    if j < 12 then 28 else if j < 13 then 28 else
    if j < 14 then 28 else if j < 15 then 26 else if j < 16 then 39 else if j < 17 then 17 else
    if j < 18 then 10 else if j < 19 then 46 else
    if j < 20 then 40 else if j < 21 then 27 else if j < 22 then 0 else if j < 23 then 2 else if j < 24 then 3 else
    if j < 25 then 21 else
    if j < 26 then 35 else if j < 27 then 12 else if j < 28 then 20 else if j < 29 then 37 else
    if j < 30 then 1 else if j < 31 then 44 else
    if j < 32 then 16 else if j < 33 then 5 else if j < 34 then 4 else if j < 35 then 41 else
    if j < 36 then 18 else if j < 37 then 9 else
    if j < 38 then 8 else if j < 39 then 13 else if j < 40 then 33 else if j < 41 then 14 else
    if j < 42 then 42 else if j < 43 then 22 else
    if j < 44 then 43 else if j < 45 then 29 else if j < 46 then 30 else if j < 47 then 47 else
    if j < 48 then 11 else if j < 49 then 15 else
    if j < 50 then 6 else if j < 51 then 32 else if j < 52 then 34 else if j < 53 then 36 else
    if j < 54 then 23 else if j < 55 then 45 else
    if j < 56 then 25 else if j < 57 then 38 else if j < 58 then 31 else if j < 59 then 24 else if j < 60 then 19 else 7
  }

  /** A number that tells the names apart: length, first and last byte. */
  function Key(name: seq<u8>): nat {
    if name == [] then 0
    else
      var first: nat, last: nat := name[0], name[|name| - 1];
      65536 * |name| + 256 * first + last
  }

  function KeyAt(j: nat): nat {
    if j < 8 then 473715 else if j < 9 then 473715 else if j < 10 then 473715 else if j < 11 then 473715 else
    if j < 12 then 473715 else if j < 13 then 473715 else if j < 14 then 473715 else if j < 15 then 942452 else
    if j < 16 then 1007975 else if j < 17 then 1007973 else if j < 18 then 876915 else if j < 19 then 418164 else
    if j < 20 then 1794414 else if j < 21 then 221541 else if j < 22 then 352631 else if j < 23 then 876910 else
    if j < 24 then 877420 else if j < 25 then 1270638 else if j < 26 then 1074023 else if j < 27 then 1074021 else
    if j < 28 then 942952 else if j < 29 then 1074030 else if j < 30 then 877413 else if j < 31 then 811877 else
    if j < 32 then 418661 else if j < 33 then 287845 else if j < 34 then 288103 else if j < 35 then 419188 else
    if j < 36 then 484723 else if j < 37 then 288365 else if j < 38 then 288884 else if j < 39 then 551272 else
    if j < 40 then 1141093 else if j < 41 then 878952 else if j < 42 then 551269 else if j < 43 then 1272165 else
    if j < 44 then 879716 else if j < 45 then 289899 else if j < 46 then 552046 else if j < 47 then 814451 else
    if j < 48 then 1208421 else if j < 49 then 1273966 else if j < 50 then 356965 else if j < 51 then 488050 else
    if j < 52 then 488040 else if j < 53 then 750194 else if j < 54 then 422770 else if j < 55 then 684901 else
    if j < 56 then 1667961 else if j < 57 then 1143911 else if j < 58 then 685428 else if j < 59 then 292473 else
    if j < 60 then 226913 else 1079141
  }

  /** The position of the first entry with a given key. */
  function FirstWithKey(key: nat): nat {
    if key < 221542 then 20 else if key < 226914 then 59 else if key < 287846 then 32 else if key < 288104 then 33 else
    if key < 288366 then 36 else if key < 288885 then 37 else if key < 289900 then 44 else if key < 292474 then 58 else
    if key < 352632 then 21 else if key < 356966 then 49 else if key < 418165 then 18 else if key < 418662 then 31 else
    if key < 419189 then 34 else if key < 422771 then 53 else if key < 473716 then 7 else if key < 484724 then 35 else
    if key < 488041 then 51 else if key < 488051 then 50 else if key < 551270 then 41 else if key < 551273 then 38 else
    if key < 552047 then 45 else if key < 684902 then 54 else if key < 685429 then 57 else if key < 750195 then 52 else
    if key < 811878 then 30 else if key < 814452 then 46 else if key < 876911 then 22 else if key < 876916 then 17 else
    if key < 877414 then 29 else if key < 877421 then 23 else if key < 878953 then 40 else if key < 879717 then 43 else
    if key < 942453 then 14 else if key < 942953 then 27 else if key < 1007974 then 16 else
    if key < 1007976 then 15 else
    if key < 1074022 then 26 else if key < 1074024 then 25 else if key < 1074031 then 28 else
    if key < 1079142 then 60 else
    if key < 1141094 then 39 else if key < 1143912 then 56 else if key < 1208422 then 47 else
    if key < 1270639 then 24 else
    if key < 1272166 then 42 else if key < 1273967 then 48 else if key < 1667962 then 55 else 19
  }

  function FirstOf(j: nat): nat {
    if 7 <= j <= 13 then 7 else j
  }

  lemma Keys7(j: nat)
    requires 7 <= j < 13
    ensures Static(j).name != [] && |Static(j).name| <= MAX_HEADER_LENGTH && Key(Static(j).name) == KeyAt(j)
  {
  }

  lemma Keys13(j: nat)
    requires 13 <= j < 19
    ensures Static(j).name != [] && |Static(j).name| <= MAX_HEADER_LENGTH && Key(Static(j).name) == KeyAt(j)
  {
  }

  lemma Keys19(j: nat)
    requires 19 <= j < 25
    ensures Static(j).name != [] && |Static(j).name| <= MAX_HEADER_LENGTH && Key(Static(j).name) == KeyAt(j)
  {
  }

  lemma Keys25(j: nat)
    requires 25 <= j < 31
    ensures Static(j).name != [] && |Static(j).name| <= MAX_HEADER_LENGTH && Key(Static(j).name) == KeyAt(j)
  {
  }

  lemma Keys31(j: nat)
    requires 31 <= j < 37
    ensures Static(j).name != [] && |Static(j).name| <= MAX_HEADER_LENGTH && Key(Static(j).name) == KeyAt(j)
  {
  }

  lemma Keys37(j: nat)
    requires 37 <= j < 43
    ensures Static(j).name != [] && |Static(j).name| <= MAX_HEADER_LENGTH && Key(Static(j).name) == KeyAt(j)
  {
  }

  lemma Keys43(j: nat)
    requires 43 <= j < 49
    ensures Static(j).name != [] && |Static(j).name| <= MAX_HEADER_LENGTH && Key(Static(j).name) == KeyAt(j)
  {
  }

  lemma Keys49(j: nat)
    requires 49 <= j < 55
    ensures Static(j).name != [] && |Static(j).name| <= MAX_HEADER_LENGTH && Key(Static(j).name) == KeyAt(j)
  {
  }

  lemma Keys55(j: nat)
    requires 55 <= j < 61
    ensures Static(j).name != [] && |Static(j).name| <= MAX_HEADER_LENGTH && Key(Static(j).name) == KeyAt(j)
  {
  }

  lemma Firsts7(j: nat)
    requires 7 <= j < 34
    ensures FirstWithKey(KeyAt(j)) == FirstOf(j)
  {
  }

  lemma Firsts34(j: nat)
    requires 34 <= j < 61
    ensures FirstWithKey(KeyAt(j)) == FirstOf(j)
  {
  }

  /** The first byte in which a name and one before it differ. */
  function DifferAt(p: nat): nat {
    if p == 14 then 3 else if p == 30 then 1 else if p == 40 then 4 else 0
  }

  lemma Otherwise0(p: nat, back: nat)
    requires 0 <= p < 16 && 1 <= back <= Distance(p) <= p
    ensures !StartsAlike(HeaderMap(p).0, HeaderMap(p - back).0)
  {
    var k := DifferAt(p);
    assert HeaderMap(p).0[k] != HeaderMap(p - back).0[k];
  }

  lemma Otherwise16(p: nat, back: nat)
    requires 16 <= p < 32 && 1 <= back <= Distance(p) <= p
    ensures !StartsAlike(HeaderMap(p).0, HeaderMap(p - back).0)
  {
    var k := DifferAt(p);
    assert HeaderMap(p).0[k] != HeaderMap(p - back).0[k];
  }

  lemma Otherwise32(p: nat, back: nat)
    requires 32 <= p < 48 && 1 <= back <= Distance(p) <= p
    ensures !StartsAlike(HeaderMap(p).0, HeaderMap(p - back).0)
  {
    var k := DifferAt(p);
    assert HeaderMap(p).0[k] != HeaderMap(p - back).0[k];
  }

  lemma Mapped7(j: nat)
    requires 7 <= j < 25
    ensures MapPosition(j) < HEADER_MAP_SIZE && HeaderMap(MapPosition(j)) == (Static(j).name, FirstOf(j))
  {
    hide Ascii;
  }

  lemma Mapped25(j: nat)
    requires 25 <= j < 43
    ensures MapPosition(j) < HEADER_MAP_SIZE && HeaderMap(MapPosition(j)) == (Static(j).name, FirstOf(j))
  {
    hide Ascii;
  }

  lemma Mapped43(j: nat)
    requires 43 <= j < 61
    ensures MapPosition(j) < HEADER_MAP_SIZE && HeaderMap(MapPosition(j)) == (Static(j).name, FirstOf(j))
  {
    hide Ascii;
  }

  lemma Names0(i: nat)
    requires 0 <= i < 16
    ensures FIRST <= HeaderMap(i).1 < STATIC_LEN && Static(HeaderMap(i).1).name == HeaderMap(i).0
    ensures FirstOf(HeaderMap(i).1) == HeaderMap(i).1
  {
    hide Ascii;
  }

  lemma Names16(i: nat)
    requires 16 <= i < 32
    ensures FIRST <= HeaderMap(i).1 < STATIC_LEN && Static(HeaderMap(i).1).name == HeaderMap(i).0
    ensures FirstOf(HeaderMap(i).1) == HeaderMap(i).1
  {
    hide Ascii;
  }

  lemma Names32(i: nat)
    requires 32 <= i < 48
    ensures FIRST <= HeaderMap(i).1 < STATIC_LEN && Static(HeaderMap(i).1).name == HeaderMap(i).0
    ensures FirstOf(HeaderMap(i).1) == HeaderMap(i).1
  {
    hide Ascii;
  }

  /** The names from FIRST on are short, and equal only within the run of `:status` entries. */
  lemma NameKey(j: nat)
    requires FIRST <= j < STATIC_LEN
    ensures 0 < |Static(j).name| <= MAX_HEADER_LENGTH
    ensures FirstWithKey(Key(Static(j).name)) == FirstOf(j)
  {
    hide Static, Ascii, Key, KeyAt, FirstWithKey;
    if {
      case 7 <= j < 34 => Firsts7(j);
      case 34 <= j < 61 => Firsts34(j);
    }
    assert FirstWithKey(KeyAt(j)) == FirstOf(j);
    if {
      case 7 <= j < 13 => Keys7(j);
      case 13 <= j < 19 => Keys13(j);
      case 19 <= j < 25 => Keys19(j);
      case 25 <= j < 31 => Keys25(j);
      case 31 <= j < 37 => Keys31(j);
      case 37 <= j < 43 => Keys37(j);
      case 43 <= j < 49 => Keys43(j);
      case 49 <= j < 55 => Keys49(j);
      case 55 <= j < 61 => Keys55(j);
    }
  }

  lemma SameName(j: nat, k: nat)
    requires FIRST <= j < STATIC_LEN && FIRST <= k < STATIC_LEN
    requires Static(j).name == Static(k).name
    ensures FirstOf(j) == FirstOf(k)
  {
    hide Static, Key, FirstWithKey;
    NameKey(j);
    NameKey(k);
  }

  /** Every name from FIRST on is in the map, with the first entry that has it. */
  lemma InMap(j: nat)
    requires FIRST <= j < STATIC_LEN
    ensures MapPosition(j) < HEADER_MAP_SIZE && HeaderMap(MapPosition(j)) == (Static(j).name, FirstOf(j))
  {
    hide Static, HeaderMap, MapPosition;
    if {
      case 7 <= j < 25 => Mapped7(j);
      case 25 <= j < 43 => Mapped25(j);
      case 43 <= j < 61 => Mapped43(j);
    }
  }

  /** The map holds nothing else. */
  lemma MapName(i: nat)
    requires i < HEADER_MAP_SIZE
    ensures FIRST <= HeaderMap(i).1 < STATIC_LEN && Static(HeaderMap(i).1).name == HeaderMap(i).0
    ensures FirstOf(HeaderMap(i).1) == HeaderMap(i).1
  {
    hide Static, HeaderMap;
    if {
      case 0 <= i < 16 => Names0(i);
      case 16 <= i < 32 => Names16(i);
      case 32 <= i < 48 => Names32(i);
    }
  }

  /** The run of `:status` entries share their name; only they and accept-encoding carry values. */
  lemma StatusRun(j: nat)
    requires 7 <= j <= 13
    ensures Static(j).name == Static(7).name && Static(j).value.Some?
  {
  }

  lemma Values(j: nat)
    requires 14 <= j < STATIC_LEN
    ensures Static(j).value.Some? ==> j == 15
  {
  }
}
