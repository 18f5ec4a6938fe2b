/** Writing dynamic indexes: assignments by stream offset, sizes by digest, and the close. */
module DynamicIndex {
  import opened Wrappers
  import opened Sums
  import opened IndexBytes
  import opened IndexFile
  import opened FixedIndex

  const TWO_63: int := 0x8000_0000_0000_0000

  type int64 = x: int | -TWO_63 <= x < TWO_63

  /** `int64(n)`: offsets are kept, and sorted, as signed 64-bit numbers. */
  function Signed(n: uint64): int64 {
    if n < TWO_63 then n else n - TWO_64
  }

  /** `uint64(k)` */
  function Unsigned(k: int64): uint64 {
    k % TWO_64
  }

  type Placed = map<int64, seq<byte>>

  // ----------------------------------------------------------- sorted offsets

  predicate Ascending(keys: seq<int64>) {
    forall i, j :: 0 <= i < j < |keys| ==> keys[i] < keys[j]
  }

  function KeySet(keys: seq<int64>): set<int64> {
    set k | k in keys
  }

  predicate IsGreatest(s: set<int64>, m: int64) {
    m in s && forall x: int64 :: x in s ==> x <= m
  }

  lemma {:induction false} HasGreatest(s: set<int64>)
    requires s != {}
    ensures exists m: int64 :: IsGreatest(s, m)
    decreases |s|
  {
    var y: int64 :| y in s;
    var rest := s - {y};
    if rest == {} {
      assert s == {y};
      assert IsGreatest(s, y);
    } else {
      HasGreatest(rest);
      var m: int64 :| IsGreatest(rest, m);
      assert s == rest + {y};
      assert IsGreatest(s, if m < y then y else m);
    }
  }

  /** The offsets in ascending order. */
  ghost function Order(s: set<int64>): seq<int64>
    decreases |s|
  {
    if s == {} then []
    else
      HasGreatest(s);
      var m: int64 :| IsGreatest(s, m);
      Order(s - {m}) + [m]
  }

  lemma OrderStep(s: set<int64>, m: int64)
    requires IsGreatest(s, m)
    ensures Order(s) == Order(s - {m}) + [m]
  {
    HasGreatest(s);
    var top: int64 :| IsGreatest(s, top) && Order(s) == Order(s - {top}) + [top];
    assert top <= m <= top;
  }

  lemma KeySetLast(keys: seq<int64>, n: nat)
    requires |keys| == n + 1 && Ascending(keys)
    ensures IsGreatest(KeySet(keys), keys[n]) && KeySet(keys) - {keys[n]} == KeySet(keys[..n])
  {
    assert keys == keys[..n] + [keys[n]];
    forall x | x in KeySet(keys) ensures x <= keys[n] {
      var i :| 0 <= i < |keys| && keys[i] == x;
    }
    forall x | x in KeySet(keys[..n]) ensures x != keys[n] {
      var i :| 0 <= i < n && keys[..n][i] == x;
    }
  }

  lemma {:induction false} AscendingIsOrder(keys: seq<int64>)
    requires Ascending(keys)
    ensures Order(KeySet(keys)) == keys
    decreases |keys|
  {
    if keys == [] {
      assert KeySet(keys) == {};
    } else {
      var n := |keys| - 1;
      AscendingIsOrder(keys[..n]);
      KeySetLast(keys, n);
      OrderStep(KeySet(keys), keys[n]);
    }
  }

  function InsertKey(keys: seq<int64>, k: int64): seq<int64> {
    if keys == [] || k < keys[0] then [k] + keys else [keys[0]] + InsertKey(keys[1..], k)
  }

  lemma KeySetCons(k: int64, keys: seq<int64>)
    ensures KeySet([k] + keys) == {k} + KeySet(keys)
  {
  }

  lemma AscendingCons(k: int64, keys: seq<int64>)
    requires Ascending(keys) && forall x :: x in KeySet(keys) ==> k < x
    ensures Ascending([k] + keys)
  {
    forall j | 0 <= j < |keys| ensures k < keys[j] {
      assert keys[j] in KeySet(keys);
    }
  }

  lemma {:induction false} InsertKeyKeepsOrder(keys: seq<int64>, k: int64)
    requires Ascending(keys) && k !in keys
    ensures Ascending(InsertKey(keys, k)) && KeySet(InsertKey(keys, k)) == KeySet(keys) + {k}
  {
    KeySetCons(k, keys);
    if keys != [] && keys[0] < k {
      var first, rest := keys[0], keys[1..];
      assert keys == [first] + rest;
      InsertKeyKeepsOrder(rest, k);
      KeySetCons(first, rest);
      KeySetCons(first, InsertKey(rest, k));
      AscendingCons(first, InsertKey(rest, k));
    }
  }

  /** Whatever order the map yields its keys in, they come out sorted. */
  method SortKeys(s: set<int64>) returns (keys: seq<int64>)
    ensures keys == Order(s)
  {
    keys := [];
    var rest := s;
    while rest != {}
      invariant rest <= s && Ascending(keys) && KeySet(keys) == s - rest
    {
      var k: int64 :| k in rest;
      assert k !in KeySet(keys);
      InsertKeyKeepsOrder(keys, k);
      keys := InsertKey(keys, k);
      rest := rest - {k};
    }
    AscendingIsOrder(keys);
    assert KeySet(keys) == s;
  }

  // ------------------------------------------------------------ what is written

  type SizeMap = map<string, uint64>

  /** Assigned digests whose size nobody ever said. */
  ghost predicate SizesKnown(a: Placed, sizes: SizeMap) {
    forall k :: k in a ==> HexOf(a[k]) in sizes
  }

  function EndOf(a: Placed, sizes: SizeMap, k: int64): uint64
    requires k in a && HexOf(a[k]) in sizes
  {
    Add64(Unsigned(k), sizes[HexOf(a[k])])
  }

  /** One line of the index: where the chunk ends, and its digest. */
  datatype Entry = Entry(end: uint64, digest: seq<byte>)

  function EntryBytes(entries: seq<Entry>): seq<byte> {
    if entries == [] then []
    else
      var last := entries[|entries| - 1];
      EntryBytes(entries[..|entries| - 1]) + Put64(last.end) + last.digest
  }

  function EntriesOf(keys: seq<int64>, a: Placed, sizes: SizeMap): (entries: seq<Entry>)
    requires forall k :: k in keys ==> k in a && HexOf(a[k]) in sizes
  {
    if keys == [] then []
    else
      var last := keys[|keys| - 1];
      EntriesOf(keys[..|keys| - 1], a, sizes) + [Entry(EndOf(a, sizes, last), a[last])]
  }

  function Body(keys: seq<int64>, a: Placed, sizes: SizeMap): seq<byte>
    requires forall k :: k in keys ==> k in a && HexOf(a[k]) in sizes
  {
    EntryBytes(EntriesOf(keys, a, sizes))
  }

  /** 4096 bytes for a checksum of 32; the handler writes what the request decoded to. */
  function DynamicHeader(uuid: Uuid, ctime: uint64, csum: seq<byte>): (head: seq<byte>)
    ensures |head| == HEADER - 32 + |csum|
  {
    MAGIC_DYNAMIC + uuid + Put64(ctime) + csum + Zeros(4032)
  }

  function DigestsIn(a: Placed): set<string> {
    set k | k in a :: HexOf(a[k])
  }

  /** The side file: a size for every digest of the index. */
  ghost function SideFile(a: Placed, sizes: SizeMap): SizeMap
    requires SizesKnown(a, sizes)
  {
    map d | d in DigestsIn(a) :: sizes[d]
  }

  lemma {:induction false} InOrder(s: set<int64>, k: int64)
    ensures k in Order(s) <==> k in s
    decreases |s|
  {
    if s != {} {
      HasGreatest(s);
      var m: int64 :| IsGreatest(s, m) && Order(s) == Order(s - {m}) + [m];
      InOrder(s - {m}, k);
    }
  }

  lemma OrderIsPlaced(a: Placed, sizes: SizeMap)
    requires SizesKnown(a, sizes)
    ensures forall k :: k in Order(a.Keys) ==> k in a && HexOf(a[k]) in sizes
  {
    forall k | k in Order(a.Keys) ensures k in a && HexOf(a[k]) in sizes {
      InOrder(a.Keys, k);
    }
  }

  ghost function ClosedFile(a: Placed, sizes: SizeMap, uuid: Uuid, ctime: uint64, csum: seq<byte>): seq<byte>
    requires SizesKnown(a, sizes)
  {
    OrderIsPlaced(a, sizes);
    DynamicHeader(uuid, ctime, csum) + Body(Order(a.Keys), a, sizes)
  }

  /** Panicked: a digest without a size. */
  datatype DynamicReply = Stored(file: seq<byte>, csjson: SizeMap) | Panicked(digest: string)

  function PlaceAll(before: Placed, digests: seq<string>, offsets: seq<uint64>): Placed
    requires |digests| == |offsets|
  {
    if digests == [] then before
    else
      var n := |digests| - 1;
      PlaceAll(before, digests[..n], offsets[..n])[Signed(offsets[n]) := Decoded(digests[n])]
  }

  predicate HasSide(jsonMap: SizeMap, keys: seq<int64>, a: Placed, sizes: SizeMap) {
    && (forall k :: k in keys ==> k in a && HexOf(a[k]) in sizes && HexOf(a[k]) in jsonMap)
    && (forall d :: d in jsonMap ==> d in sizes && jsonMap[d] == sizes[d])
    && (forall d :: d in jsonMap ==> exists k :: k in keys && k in a && HexOf(a[k]) == d)
  }

  lemma SideStep(jsonMap: SizeMap, keys: seq<int64>, a: Placed, sizes: SizeMap, k: int64)
    requires HasSide(jsonMap, keys, a, sizes) && k in a && HexOf(a[k]) in sizes
    ensures HasSide(jsonMap[HexOf(a[k]) := sizes[HexOf(a[k])]], keys + [k], a, sizes)
  {
    var after := jsonMap[HexOf(a[k]) := sizes[HexOf(a[k])]];
    assert k in keys + [k];
    forall d | d in after ensures exists j :: j in keys + [k] && j in a && HexOf(a[j]) == d {
      if d != HexOf(a[k]) {
        var j :| j in keys && j in a && HexOf(a[j]) == d;
        assert j in keys + [k];
      }
    }
  }

  lemma OrderMembers(a: Placed)
    ensures forall k :: k in Order(a.Keys) <==> k in a
  {
    forall k ensures k in Order(a.Keys) <==> k in a {
      InOrder(a.Keys, k);
    }
  }

  lemma SideKeys(jsonMap: SizeMap, a: Placed, sizes: SizeMap, d: string)
    requires HasSide(jsonMap, Order(a.Keys), a, sizes)
    ensures d in jsonMap <==> d in DigestsIn(a)
  {
    OrderMembers(a);
    if d in DigestsIn(a) {
      var k :| k in a && HexOf(a[k]) == d;
      assert k in Order(a.Keys);
    }
  }

  lemma SameSizes(one: SizeMap, other: SizeMap)
    requires one.Keys == other.Keys && forall d :: d in one ==> one[d] == other[d]
    ensures one == other
  {
  }

  lemma SideIsSide(jsonMap: SizeMap, a: Placed, sizes: SizeMap)
    requires SizesKnown(a, sizes) && HasSide(jsonMap, Order(a.Keys), a, sizes)
    ensures jsonMap == SideFile(a, sizes)
  {
    var side := SideFile(a, sizes);
    forall d ensures d in jsonMap.Keys <==> d in side.Keys {
      SideKeys(jsonMap, a, sizes, d);
    }
    SameSizes(jsonMap, side);
  }

  lemma AllHaveSizes(a: Placed, sizes: SizeMap, jsonMap: SizeMap)
    requires HasSide(jsonMap, Order(a.Keys), a, sizes)
    ensures SizesKnown(a, sizes)
  {
    forall k | k in a ensures HexOf(a[k]) in sizes {
      InOrder(a.Keys, k);
    }
  }

  /** The two objects, as far as the given offsets go. */
  predicate Written(body: seq<byte>, jsonMap: SizeMap, keys: seq<int64>, a: Placed, sizes: SizeMap) {
    HasSide(jsonMap, keys, a, sizes) && body == Body(keys, a, sizes)
  }

  /** One entry of the index, and its line of the side file. */
  method AddEntry(k: int64, digest: string, body: seq<byte>, jsonMap: SizeMap, a: Placed, sizes: SizeMap,
                  ghost before: seq<int64>)
    returns (body': seq<byte>, jsonMap': SizeMap)
    requires k in a && digest == HexOf(a[k]) && digest in sizes && Written(body, jsonMap, before, a, sizes)
    ensures Written(body', jsonMap', before + [k], a, sizes)
  {
    SideStep(jsonMap, before, a, sizes, k);
    assert (before + [k])[..|before|] == before;
    ghost var entries := EntriesOf(before, a, sizes);
    assert (entries + [Entry(EndOf(a, sizes, k), a[k])])[..|entries|] == entries;
    body' := body + Put64(Add64(Unsigned(k), sizes[digest])) + a[k];
    jsonMap' := jsonMap[digest := sizes[digest]];
  }

  method WriteEntries(keys: seq<int64>, a: Placed, sizes: SizeMap)
    returns (missing: Option<string>, body: seq<byte>, jsonMap: SizeMap)
    requires forall k :: k in keys ==> k in a
    ensures missing.Some? ==> missing.value !in sizes && exists k :: k in keys && HexOf(a[k]) == missing.value
    ensures missing.None? ==> Written(body, jsonMap, keys, a, sizes)
  {
    missing, body, jsonMap := None, [], map[];
    var n := 0;
    while n < |keys|
      invariant 0 <= n <= |keys| && Written(body, jsonMap, keys[..n], a, sizes)
    {
      var k := keys[n];
      var digest := HexOf(a[k]);
      if digest !in sizes {
        return Some(digest), body, jsonMap;
      }
      assert keys[..n + 1] == keys[..n] + [k];
      body, jsonMap := AddEntry(k, digest, body, jsonMap, a, sizes, keys[..n]);
      n := n + 1;
    }
    assert keys[..|keys|] == keys;
  }

  // ------------------------------------------------------------------ sessions

  /** What a session knows about one dynamic index: its assignments, sizes of its uploads, sizes it was sent. */
  datatype Session = Session(assignments: Placed, recorded: SizeMap, known: SizeMap)

  /** A chunk was stored for the index, a side file was loaded, digests were assigned. */
  datatype Event =
    | Uploaded(digest: string, size: uint64)
    | Loaded(side: SizeMap)
    | Put(digests: seq<string>, offsets: seq<uint64>)

  function Shorter(digests: seq<string>, offsets: seq<uint64>): nat {
    if |offsets| < |digests| then |offsets| else |digests|
  }

  function After(s: Session, e: Event): Session {
    match e
    case Uploaded(digest, size) => s.(recorded := s.recorded[digest := size])
    case Loaded(side) => s.(known := s.known + side)
    case Put(digests, offsets) =>
      var n := Shorter(digests, offsets);
      s.(assignments := PlaceAll(s.assignments, digests[..n], offsets[..n]))
  }

  /** A session that came this far. */
  function Replay(events: seq<Event>): Session {
    if events == [] then Session(map[], map[], map[])
    else After(Replay(events[..|events| - 1]), events[|events| - 1])
  }

  /** The sizes a close looks digests up in; what was sent overrides what was uploaded. */
  function SizesOf(s: Session): SizeMap {
    s.recorded + s.known
  }

  class DynamicWriter {
    var assignments: Placed
    var sizes: SizeMap
    /** Of the session, filled from the side files of indexes it was sent. */
    var known: SizeMap

    constructor ()
      ensures State() == Replay([])
    {
      assignments, sizes, known := map[], map[], map[];
    }

    ghost function State(): Session
      reads this
    {
      Session(assignments, sizes, known)
    }

    /** After a dynamic chunk was stored. */
    method RecordSize(digest: string, size: uint64)
      modifies this`sizes
      ensures State() == After(old(State()), Uploaded(digest, size))
    {
      sizes := sizes[digest := size];
    }

    /** GET previous: every entry of the side file, in any order. */
    method LoadSideFile(side: SizeMap)
      modifies this`known
      ensures State() == After(old(State()), Loaded(side))
    {
      var rest := side.Keys;
      while rest != {}
        invariant rest <= side.Keys
        invariant known == old(known) + map d | d in side && d !in rest :: side[d]
      {
        var digest :| digest in rest;
        rest := rest - {digest};
        known := known[digest := side[digest]];
      }
      assert side == map d | d in side && d !in rest :: side[d];
    }

    /**
     * PUT dynamic_index. More digests than offsets make the handler fail, after
     * what it has done so far; a digest that does not decode is reported, and
     * assigned as far as it did.
     */
    method Assign(digests: seq<string>, offsets: seq<uint64>) returns (outOfRange: bool, allDecoded: bool)
      modifies this`assignments
      ensures State() == After(old(State()), Put(digests, offsets))
      ensures outOfRange <==> |offsets| < |digests|
      ensures allDecoded <==> forall i :: 0 <= i < |digests| && i <= |offsets| ==> DecodesFully(digests[i])
    {
      outOfRange, allDecoded := false, true;
      for i := 0 to |digests|
        invariant i <= |offsets| && assignments == PlaceAll(old(assignments), digests[..i], offsets[..i])
        invariant allDecoded <==> forall j :: 0 <= j < i ==> DecodesFully(digests[j])
      {
        if !DecodesFully(digests[i]) {
          allDecoded := false;
        }
        if i == |offsets| {
          return true, allDecoded;
        }
        assert digests[..i + 1][..i] == digests[..i] && offsets[..i + 1][..i] == offsets[..i];
        assignments := assignments[Signed(offsets[i]) := Decoded(digests[i])];
      }
    }

    /** POST dynamic_close, up to the two objects that are stored. */
    method Close(csum: seq<byte>, uuid: Uuid, ctime: uint64) returns (reply: DynamicReply)
      modifies this`sizes
      ensures sizes == SizesOf(old(State()))
      ensures reply.Stored? <==> SizesKnown(assignments, sizes)
      ensures reply.Stored? ==>
        reply.file == ClosedFile(assignments, sizes, uuid, ctime, csum) && reply.csjson == SideFile(assignments, sizes)
      ensures reply.Panicked? ==> reply.digest in DigestsIn(assignments) && reply.digest !in sizes
    {
      sizes := sizes + known;
      var keys := SortKeys(assignments.Keys);
      OrderMembers(assignments);
      var missing, body, jsonMap := WriteEntries(keys, assignments, sizes);
      if missing.Some? {
        return Panicked(missing.value);
      }
      AllHaveSizes(assignments, sizes, jsonMap);
      SideIsSide(jsonMap, assignments, sizes);
      return Stored(DynamicHeader(uuid, ctime, csum) + body, jsonMap);
    }
  }
}
