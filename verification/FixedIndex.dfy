/** Writing fixed indexes: assignments, close with and without reuse, and incremental chains. */
module FixedIndex {
  import opened Wrappers
  import opened Sums
  import opened IndexBytes
  import opened IndexFile

  // ----------------------------------------------------------- patching bytes

  /** `copy(s[at:], val)` */
  function Patch(s: seq<byte>, at: nat, val: seq<byte>): (r: seq<byte>)
    requires at + |val| <= |s|
    ensures |r| == |s|
  {
    s[..at] + val + s[at + |val|..]
  }

  lemma PatchKeeps(s: seq<byte>, at: nat, val: seq<byte>, a: nat, b: nat)
    requires at + |val| <= |s| && a <= b <= |s| && (b <= at || at + |val| <= a)
    ensures Patch(s, at, val)[a..b] == s[a..b]
  {
    forall i | 0 <= i < b - a ensures Patch(s, at, val)[a..b][i] == s[a..b][i] {
      assert Patch(s, at, val)[a + i] == s[a + i];
    }
  }

  /** The part of a field that a shorter or equal copy covers is replaced, the rest stays. */
  lemma PatchSets(s: seq<byte>, at: nat, val: seq<byte>, b: nat)
    requires at + |val| <= b <= |s|
    ensures Patch(s, at, val)[at..b] == val + s[at + |val|..b]
  {
  }

  method CopyBytes(a: array<byte>, at: nat, val: seq<byte>)
    requires at + |val| <= a.Length
    modifies a
    ensures a[..] == Patch(old(a[..]), at, val)
  {
    for i := 0 to |val|
      invariant forall j :: 0 <= j < i ==> a[at + j] == val[j]
      invariant a[..at] == old(a[..at]) && a[at + i..] == old(a[at + i..])
    {
      a[at + i] := val[i];
    }
    assert a[..] == a[..at] + a[at..at + |val|] + a[at + |val|..];
    assert a[at..at + |val|] == val;
  }

  // -------------------------------------------------------------- the layout

  function Zeros(n: nat): (s: seq<byte>)
    ensures |s| == n
  {
    seq(n, _ => 0)
  }

  const NO_DIGEST: Digest := Zeros(32)

  type Magic = m: seq<byte> | |m| == 8 witness seq(8, _ => 0)
  type Uuid = u: seq<byte> | |u| == 16 witness seq(16, _ => 0)

  datatype Header = Header(magic: Magic, uuid: Uuid, ctime: uint64, csum: Digest, size: uint64, chunkSize: uint64)

  predicate IsHeader(file: seq<byte>, h: Header)
    requires |file| >= HEADER
  {
    && file[0..8] == h.magic && file[8..24] == h.uuid && file[24..32] == Put64(h.ctime) && file[32..64] == h.csum
    && file[64..72] == Put64(h.size) && file[72..80] == Put64(h.chunkSize) && file[80..HEADER] == Zeros(4016)
  }

  predicate HasSlots(file: seq<byte>, slots: seq<Digest>) {
    |file| == HEADER + 32 * |slots| &&
    forall k :: 0 <= k < |slots| ==> file[HEADER + 32 * k..HEADER + 32 * k + 32] == slots[k]
  }

  /** Every byte of a fixed index: its header fields and one digest per slot. */
  predicate FileIs(file: seq<byte>, h: Header, slots: seq<Digest>) {
    HasSlots(file, slots) && IsHeader(file, h)
  }

  lemma {:induction false} ZeroWord(width: nat)
    ensures LittleEndian(0, width) == Zeros(width)
  {
    if width > 0 {
      ZeroWord(width - 1);
    }
  }

  function BlankHeader(): Header {
    Header(Zeros(8), Zeros(16), 0, NO_DIGEST, 0, 0)
  }

  lemma ZeroFile(n: nat)
    ensures FileIs(Zeros(HEADER + 32 * n), BlankHeader(), seq(n, _ => NO_DIGEST))
  {
    ZeroWord(8);
  }

  lemma PatchKeepsSlots(file: seq<byte>, at: nat, val: seq<byte>, slots: seq<Digest>)
    requires HasSlots(file, slots) && at + |val| <= HEADER
    ensures HasSlots(Patch(file, at, val), slots)
  {
    forall k | 0 <= k < |slots|
      ensures Patch(file, at, val)[HEADER + 32 * k..HEADER + 32 * k + 32] == slots[k]
    {
      PatchKeeps(file, at, val, HEADER + 32 * k, HEADER + 32 * k + 32);
    }
  }

  /** Copying a whole field over changes that field and no other. */
  lemma PatchField(file: seq<byte>, at: nat, val: seq<byte>)
    requires |file| >= HEADER && at + |val| <= HEADER
    ensures Patch(file, at, val)[at..at + |val|] == val
    ensures forall a, b :: 0 <= a <= b <= HEADER && (b <= at || at + |val| <= a) ==>
      Patch(file, at, val)[a..b] == file[a..b]
  {
    PatchSets(file, at, val, at + |val|);
    forall a, b | 0 <= a <= b <= HEADER && (b <= at || at + |val| <= a)
      ensures Patch(file, at, val)[a..b] == file[a..b]
    {
      PatchKeeps(file, at, val, a, b);
    }
  }

  lemma SetMagic(file: seq<byte>, h: Header, slots: seq<Digest>, magic: Magic)
    requires FileIs(file, h, slots)
    ensures FileIs(Patch(file, 0, magic), h.(magic := magic), slots)
  {
    PatchKeepsSlots(file, 0, magic, slots);
    PatchField(file, 0, magic);
  }

  lemma SetUuid(file: seq<byte>, h: Header, slots: seq<Digest>, uuid: Uuid)
    requires FileIs(file, h, slots)
    ensures FileIs(Patch(file, 8, uuid), h.(uuid := uuid), slots)
  {
    PatchKeepsSlots(file, 8, uuid, slots);
    PatchField(file, 8, uuid);
  }

  lemma SetCtime(file: seq<byte>, h: Header, slots: seq<Digest>, ctime: uint64)
    requires FileIs(file, h, slots)
    ensures FileIs(Patch(file, 24, Put64(ctime)), h.(ctime := ctime), slots)
  {
    PatchKeepsSlots(file, 24, Put64(ctime), slots);
    PatchField(file, 24, Put64(ctime));
  }

  lemma SetCsum(file: seq<byte>, h: Header, slots: seq<Digest>, csum: Digest)
    requires FileIs(file, h, slots)
    ensures FileIs(Patch(file, 32, csum), h.(csum := csum), slots)
  {
    PatchKeepsSlots(file, 32, csum, slots);
    PatchField(file, 32, csum);
  }

  lemma SetSize(file: seq<byte>, h: Header, slots: seq<Digest>, size: uint64)
    requires FileIs(file, h, slots)
    ensures FileIs(Patch(file, 64, Put64(size)), h.(size := size), slots)
  {
    PatchKeepsSlots(file, 64, Put64(size), slots);
    PatchField(file, 64, Put64(size));
  }

  lemma SetChunkSize(file: seq<byte>, h: Header, slots: seq<Digest>, chunkSize: uint64)
    requires FileIs(file, h, slots)
    ensures FileIs(Patch(file, 72, Put64(chunkSize)), h.(chunkSize := chunkSize), slots)
  {
    PatchKeepsSlots(file, 72, Put64(chunkSize), slots);
    PatchField(file, 72, Put64(chunkSize));
  }

  /** `copy` of an assigned value into a slot: 32 bytes at most, and fewer leave the rest as it was. */
  function Laid(slot: Digest, val: seq<byte>): (d: Digest)
    ensures |val| == 32 ==> d == val
  {
    if |val| >= 32 then val[..32] else val + slot[|val|..]
  }

  function Cut(val: seq<byte>): seq<byte> {
    if |val| >= 32 then val[..32] else val
  }

  lemma SetSlot(file: seq<byte>, h: Header, slots: seq<Digest>, k: nat, val: seq<byte>)
    requires FileIs(file, h, slots) && k < |slots|
    ensures FileIs(Patch(file, HEADER + 32 * k, Cut(val)), h, slots[k := Laid(slots[k], val)])
  {
    var at, cut := HEADER + 32 * k, Cut(val);
    var after, slots' := Patch(file, at, cut), slots[k := Laid(slots[k], val)];
    forall j | 0 <= j < |slots| ensures after[HEADER + 32 * j..HEADER + 32 * j + 32] == slots'[j] {
      if j == k {
        PatchSets(file, at, cut, at + 32);
        assert file[at + |cut|..at + 32] == file[at..at + 32][|cut|..];
      } else {
        PatchKeeps(file, at, cut, HEADER + 32 * j, HEADER + 32 * j + 32);
      }
    }
    HeaderUntouched(file, h, at, cut);
  }

  lemma HeaderUntouched(file: seq<byte>, h: Header, at: nat, val: seq<byte>)
    requires HEADER <= at && at + |val| <= |file| && IsHeader(file, h)
    ensures IsHeader(Patch(file, at, val), h)
  {
    PatchKeeps(file, at, val, 0, 8);
    PatchKeeps(file, at, val, 8, 24);
    PatchKeeps(file, at, val, 24, 32);
    PatchKeeps(file, at, val, 32, 64);
    PatchKeeps(file, at, val, 64, 72);
    PatchKeeps(file, at, val, 72, 80);
    PatchKeeps(file, at, val, 80, HEADER);
  }

  // ------------------------------------------------------------- assignments

  type Assignments = map<uint64, seq<byte>>

  /** One request after the other, one pair after the other: a later offset overwrites an earlier one. */
  function AssignAll(before: Assignments, digests: seq<string>, offsets: seq<uint64>): Assignments
    requires |digests| == |offsets|
  {
    if digests == [] then before
    else
      var n := |digests| - 1;
      AssignAll(before, digests[..n], offsets[..n])[offsets[n] := Decoded(digests[n])]
  }

  lemma {:induction false} AssignAllIsLast(before: Assignments, digests: seq<string>, offsets: seq<uint64>, i: nat)
    requires |digests| == |offsets| && i < |offsets|
    requires forall j :: i < j < |offsets| ==> offsets[j] != offsets[i]
    ensures offsets[i] in AssignAll(before, digests, offsets)
    ensures AssignAll(before, digests, offsets)[offsets[i]] == Decoded(digests[i])
    decreases |digests|
  {
    var n := |digests| - 1;
    if i < n {
      AssignAllIsLast(before, digests[..n], offsets[..n], i);
    }
  }

  datatype AssignReply = LengthsDiffer | OffBoundary | Assigned(allDecoded: bool)

  // ------------------------------------------------------------------ closing

  /** How many multiples of the chunk size are below the size. */
  function Blocks(size: nat, chunkSize: nat): nat
    requires chunkSize > 0
  {
    (size + chunkSize - 1) / chunkSize
  }

  lemma BlocksExactly(size: nat, chunkSize: nat, k: nat)
    requires chunkSize > 0
    ensures k < Blocks(size, chunkSize) <==> k * chunkSize < size
  {
    var q, r := Blocks(size, chunkSize), (size + chunkSize - 1) % chunkSize;
    assert q * chunkSize + r == size + chunkSize - 1;
    if k < q {
      MulAtMost(k + 1, q, chunkSize);
      assert (k + 1) * chunkSize == k * chunkSize + chunkSize;
    } else {
      MulAtMost(q, k, chunkSize);
    }
  }

  lemma MulAtMost(a: nat, b: nat, c: nat)
    requires a <= b
    ensures a * c <= b * c
  {
  }

  /** The slots of a closed index, given the slots it starts from. */
  function Overlaid(base: seq<Digest>, a: Assignments, size: nat, chunkSize: nat): seq<Digest> {
    seq(|base|, k requires 0 <= k < |base| =>
      if k * chunkSize < size && k * chunkSize in a then Laid(base[k], a[k * chunkSize]) else base[k])
  }

  ghost predicate NoHole(a: Assignments, size: nat, chunkSize: nat) {
    forall k: nat :: k * chunkSize < size ==> k * chunkSize in a
  }

  function ZeroSlots(n: nat): seq<Digest> {
    seq(n, _ => NO_DIGEST)
  }

  /** OutOfBounds: a slice that ends beyond the memory behind it; the handler panics. */
  datatype CloseReply = Closed(file: seq<byte>) | Hole | NoIndexToReuse | OutOfBounds

  /** Overlaid, for the first n blocks only. */
  function OverlaidUpTo(base: seq<Digest>, a: Assignments, n: nat, chunkSize: nat): seq<Digest> {
    seq(|base|, k requires 0 <= k < |base| =>
      if k < n && k * chunkSize in a then Laid(base[k], a[k * chunkSize]) else base[k])
  }

  lemma OneMoreBlock(base: seq<Digest>, a: Assignments, n: nat, chunkSize: nat)
    requires n < |base|
    ensures OverlaidUpTo(base, a, n + 1, chunkSize) ==
      if n * chunkSize in a
      then OverlaidUpTo(base, a, n, chunkSize)[n := Laid(OverlaidUpTo(base, a, n, chunkSize)[n], a[n * chunkSize])]
      else OverlaidUpTo(base, a, n, chunkSize)
  {
  }

  lemma AllBlocks(base: seq<Digest>, a: Assignments, size: nat, chunkSize: nat)
    requires chunkSize > 0
    ensures OverlaidUpTo(base, a, Blocks(size, chunkSize), chunkSize) == Overlaid(base, a, size, chunkSize)
  {
    forall k: nat ensures k < Blocks(size, chunkSize) <==> k * chunkSize < size {
      BlocksExactly(size, chunkSize, k);
    }
  }

  /** The first n block offsets. */
  ghost function FirstOffsets(n: nat, chunkSize: nat): set<nat> {
    set k: nat | k < n :: k * chunkSize
  }

  lemma {:induction false} OffsetsAreDistinct(n: nat, chunkSize: nat)
    requires chunkSize > 0
    ensures |FirstOffsets(n, chunkSize)| == n
  {
    if n > 0 {
      OffsetsAreDistinct(n - 1, chunkSize);
      var last := (n - 1) * chunkSize;
      forall k: nat | k < n - 1 ensures k * chunkSize != last {
        MulAtMost(k + 1, n - 1, chunkSize);
        assert (k + 1) * chunkSize == k * chunkSize + chunkSize;
      }
      assert FirstOffsets(n, chunkSize) == FirstOffsets(n - 1, chunkSize) + {last};
    }
  }

  lemma {:induction false} SubsetIsSmaller<T>(a: set<T>, b: set<T>)
    requires a <= b
    ensures |a| <= |b|
    ensures |a| == |b| ==> a == b
  {
    assert b == a + (b - a);
    assert |b| == |a| + |b - a|;
  }

  ghost predicate Covers(a: Assignments, n: nat, chunkSize: nat) {
    forall k: nat :: k < n ==> k * chunkSize in a
  }

  /** Without a hole so far there is a slot for the next block: it is never written out of range. */
  lemma SlotIsThere(a: Assignments, n: nat, chunkSize: nat)
    requires chunkSize > 0 && Covers(a, n, chunkSize)
    ensures n <= |a|
  {
    OffsetsAreDistinct(n, chunkSize);
    forall o | o in FirstOffsets(n, chunkSize) ensures o in a.Keys {
      var k: nat :| k < n && o == k * chunkSize;
    }
    KeysSubset(FirstOffsets(n, chunkSize), a);
  }

  lemma KeysSubset(s: set<nat>, a: Assignments)
    requires forall o :: o in s ==> o in a
    ensures |s| <= |a|
  {
    var keys: set<nat> := set o: nat | o in a.Keys;
    assert |keys| == |a.Keys| by {
      SameSize(a.Keys, keys);
    }
    SubsetIsSmaller(s, keys);
  }

  lemma {:induction false} SameSize(s: set<uint64>, t: set<nat>)
    requires forall x: nat :: x in t <==> x < TWO_64 && x in s
    ensures |s| == |t|
    decreases |s|
  {
    if s == {} {
      assert t == {};
    } else {
      var x :| x in s;
      SameSize(s - {x}, t - {x});
    }
  }

  /** The facts one turn of the closing loop needs about block k. */
  lemma BlockIsThere(a: Assignments, size: nat, chunkSize: nat, k: nat)
    requires chunkSize > 0 && k * chunkSize < size
    ensures k < Blocks(size, chunkSize)
    ensures (k + 1) * chunkSize == k * chunkSize + chunkSize
    ensures k * chunkSize !in a ==> !NoHole(a, size, chunkSize)
    ensures Covers(a, k, chunkSize) && k * chunkSize in a ==> Covers(a, k + 1, chunkSize) && k < |a|
  {
    BlocksExactly(size, chunkSize, k);
    assert (k + 1) * chunkSize == k * chunkSize + chunkSize;
    if Covers(a, k, chunkSize) && k * chunkSize in a {
      SlotIsThere(a, k + 1, chunkSize);
    }
  }

  lemma NothingLaid(base: seq<Digest>, a: Assignments, chunkSize: nat)
    ensures OverlaidUpTo(base, a, 0, chunkSize) == base
  {
  }

  /** What an earlier close left under indexed/, as far as it matters for reusing it. */
  ghost predicate Reusable(file: seq<byte>, h: Header, slots: seq<Digest>) {
    && FileIs(file, h, slots) && h.chunkSize > 0 && h.size + h.chunkSize <= TWO_64
    && Blocks(h.size, h.chunkSize) <= |slots|
  }

  /** What closing a new index stores. */
  ghost predicate ClosesFresh(file: seq<byte>, h: Header, a: Assignments) {
    FileIs(file, h, Overlaid(ZeroSlots(|a|), a, h.size, h.chunkSize))
  }

  /** What closing one that reuses a stored index stores: size and chunk size are taken over. */
  ghost predicate ClosesReused(file: seq<byte>, h: Header, was: Header, slots: seq<Digest>, a: Assignments) {
    && h == was.(csum := h.csum, uuid := h.uuid, ctime := h.ctime)
    && FileIs(file, h, Overlaid(slots, a, was.size, was.chunkSize))
  }

  // ------------------------------------------------------- the close, byte by byte

  /**
   * Bytes read into memory, and the spare room the slice has behind them. A
   * slice expression may reach into the spare room; what is stored ends before it.
   */
  datatype Buffer = Buffer(data: seq<byte>, spare: seq<byte>) {
    function All(): seq<byte> {
      data + spare
    }
  }

  /** The closing loop comes to an end, and before its counter wraps around. */
  predicate LoopEnds(size: nat, chunkSize: nat) {
    size == 0 || (chunkSize > 0 && size + chunkSize <= TWO_64)
  }

  /** How often it turns. */
  function Turns(size: nat, chunkSize: nat): nat
    requires LoopEnds(size, chunkSize)
  {
    if size == 0 then 0 else Blocks(size, chunkSize)
  }

  /** Every slot that is assigned, among the first n, lies within this many bytes. */
  ghost predicate Fits(room: nat, a: Assignments, n: nat, chunkSize: nat) {
    forall k: nat :: k < n && k * chunkSize in a ==> HEADER + 32 * k + 32 <= room
  }

  /** The new checksum, UUID and time of an index. */
  function Stamped(file: seq<byte>, csum: Digest, uuid: Uuid, ctime: uint64): (r: seq<byte>)
    requires |file| >= 64
    ensures |r| == |file|
  {
    Patch(Patch(Patch(file, 32, csum), 8, uuid), 24, Put64(ctime))
  }

  /** The digests assigned to the first n blocks, each copied into its slot. */
  ghost function LaidBlocks(file: seq<byte>, a: Assignments, n: nat, chunkSize: nat): (r: seq<byte>)
    requires Fits(|file|, a, n, chunkSize)
    ensures |r| == |file|
  {
    if n == 0 then file else OneLaid(LaidBlocks(file, a, n - 1, chunkSize), a, n - 1, chunkSize)
  }

  /** The digest assigned to block k, if there is one, copied into its slot. */
  function OneLaid(file: seq<byte>, a: Assignments, k: nat, chunkSize: nat): (r: seq<byte>)
    requires k * chunkSize in a ==> HEADER + 32 * k + 32 <= |file|
    ensures |r| == |file|
  {
    if k * chunkSize in a then Patch(file, HEADER + 32 * k, Cut(a[k * chunkSize])) else file
  }

  lemma LaidOneMore(file: seq<byte>, a: Assignments, n: nat, chunkSize: nat)
    requires Fits(|file|, a, n + 1, chunkSize)
    ensures Fits(|file|, a, n, chunkSize)
    ensures LaidBlocks(file, a, n + 1, chunkSize) == OneLaid(LaidBlocks(file, a, n, chunkSize), a, n, chunkSize)
  {
  }

  lemma StampedIs(file: seq<byte>, h: Header, slots: seq<Digest>, csum: Digest, uuid: Uuid, ctime: uint64)
    requires FileIs(file, h, slots)
    ensures FileIs(Stamped(file, csum, uuid, ctime), h.(csum := csum, uuid := uuid, ctime := ctime), slots)
  {
    SetCsum(file, h, slots, csum);
    var one := Patch(file, 32, csum);
    SetUuid(one, h.(csum := csum), slots, uuid);
    SetCtime(Patch(one, 8, uuid), h.(csum := csum, uuid := uuid), slots, ctime);
  }

  /** In an index with a slot for each of the blocks, laying them is overlaying its slots. */
  lemma {:induction false} LaidIsOverlaid(file: seq<byte>, h: Header, slots: seq<Digest>, a: Assignments, n: nat,
                                          chunkSize: nat)
    requires FileIs(file, h, slots) && n <= |slots| && Fits(|file|, a, n, chunkSize)
    ensures FileIs(LaidBlocks(file, a, n, chunkSize), h, OverlaidUpTo(slots, a, n, chunkSize))
    decreases n
  {
    if n == 0 {
      NothingLaid(slots, a, chunkSize);
      assert LaidBlocks(file, a, n, chunkSize) == file;
    } else {
      LaidIsOverlaid(file, h, slots, a, n - 1, chunkSize);
      OneMoreLaid(LaidBlocks(file, a, n - 1, chunkSize), h, slots, a, n - 1, chunkSize);
      LaidOneMore(file, a, n - 1, chunkSize);
    }
  }

  lemma SlotsFit(file: seq<byte>, h: Header, slots: seq<Digest>, a: Assignments, n: nat, chunkSize: nat)
    requires FileIs(file, h, slots) && n <= |slots|
    ensures Fits(|file|, a, n, chunkSize)
  {
  }

  lemma OneMoreLaid(front: seq<byte>, h: Header, slots: seq<Digest>, a: Assignments, k: nat, chunkSize: nat)
    requires FileIs(front, h, OverlaidUpTo(slots, a, k, chunkSize)) && k < |slots|
    ensures FileIs(OneLaid(front, a, k, chunkSize), h, OverlaidUpTo(slots, a, k + 1, chunkSize))
  {
    OneMoreBlock(slots, a, k, chunkSize);
    if k * chunkSize in a {
      SetSlot(front, h, OverlaidUpTo(slots, a, k, chunkSize), k, a[k * chunkSize]);
    }
  }

  lemma PatchInFront(data: seq<byte>, spare: seq<byte>, at: nat, val: seq<byte>)
    requires at + |val| <= |data|
    ensures Patch(data + spare, at, val) == Patch(data, at, val) + spare
  {
  }

  lemma StampInFront(data: seq<byte>, spare: seq<byte>, csum: Digest, uuid: Uuid, ctime: uint64)
    requires |data| >= 64
    ensures Stamped(data + spare, csum, uuid, ctime) == Stamped(data, csum, uuid, ctime) + spare
  {
    PatchInFront(data, spare, 32, csum);
    PatchInFront(Patch(data, 32, csum), spare, 8, uuid);
    PatchInFront(Patch(Patch(data, 32, csum), 8, uuid), spare, 24, Put64(ctime));
  }

  lemma {:induction false} LaidInFront(data: seq<byte>, spare: seq<byte>, a: Assignments, n: nat, chunkSize: nat)
    requires Fits(|data|, a, n, chunkSize)
    ensures Fits(|data + spare|, a, n, chunkSize)
    ensures LaidBlocks(data + spare, a, n, chunkSize) == LaidBlocks(data, a, n, chunkSize) + spare
    decreases n
  {
    if n > 0 {
      LaidInFront(data, spare, a, n - 1, chunkSize);
      var offset := (n - 1) * chunkSize;
      if offset in a {
        PatchInFront(LaidBlocks(data, a, n - 1, chunkSize), spare, HEADER + 32 * (n - 1), Cut(a[offset]));
      }
    }
  }

  /** The file a reusing close makes of what it read. */
  ghost function Reworked(was: Buffer, csum: Digest, uuid: Uuid, ctime: uint64, a: Assignments): seq<byte>
    requires Reworkable(was, a)
  {
    var size, chunkSize := SizeIn(was), ChunkSizeIn(was);
    LaidBlocks(Stamped(was.All(), csum, uuid, ctime), a, Turns(size, chunkSize), chunkSize)[..|was.data|]
  }

  function SizeIn(was: Buffer): uint64
    requires |was.All()| >= 80
  {
    Get64(was.All()[64..72])
  }

  function ChunkSizeIn(was: Buffer): uint64
    requires |was.All()| >= 80
  {
    Get64(was.All()[72..80])
  }

  /** It has a header to read, by which every assigned slot lies in the memory there is. */
  ghost predicate Reworkable(was: Buffer, a: Assignments) {
    && |was.All()| >= 80 && LoopEnds(SizeIn(was), ChunkSizeIn(was))
    && Fits(|was.All()|, a, Turns(SizeIn(was), ChunkSizeIn(was)), ChunkSizeIn(was))
  }

  /** An index a proxy wrote is reworked into one with its slots overlaid, whatever the spare room. */
  lemma ReusableIsReworked(was: Buffer, h: Header, slots: seq<Digest>, csum: Digest, uuid: Uuid, ctime: uint64,
                           a: Assignments)
    requires Reusable(was.data, h, slots)
    ensures Reworkable(was, a) && SizeIn(was) == h.size && ChunkSizeIn(was) == h.chunkSize
    ensures ClosesReused(Reworked(was, csum, uuid, ctime, a), h.(csum := csum, uuid := uuid, ctime := ctime),
                         h, slots, a)
  {
    var n, head := Blocks(h.size, h.chunkSize), h.(csum := csum, uuid := uuid, ctime := ctime);
    assert was.All()[64..72] == was.data[64..72] && was.All()[72..80] == was.data[72..80];
    Word64RoundTrip(h.size);
    Word64RoundTrip(h.chunkSize);
    var stamped := Stamped(was.data, csum, uuid, ctime);
    StampedIs(was.data, h, slots, csum, uuid, ctime);
    StampInFront(was.data, was.spare, csum, uuid, ctime);
    SlotsFit(stamped, head, slots, a, n, h.chunkSize);
    LaidIsOverlaid(stamped, head, slots, a, n, h.chunkSize);
    LaidInFront(stamped, was.spare, a, n, h.chunkSize);
    AllBlocks(slots, a, h.size, h.chunkSize);
    NoBlocksInNothing(h.size, h.chunkSize);
  }

  lemma NoBlocksInNothing(size: nat, chunkSize: nat)
    requires chunkSize > 0 && size + chunkSize <= TWO_64
    ensures Turns(size, chunkSize) == Blocks(size, chunkSize)
  {
    BlocksExactly(size, chunkSize, 0);
  }

  lemma LoopIsOver(a: Assignments, size: nat, chunkSize: nat, k: nat)
    requires LoopEnds(size, chunkSize) && k * chunkSize >= size && k <= Turns(size, chunkSize)
    ensures k == Turns(size, chunkSize)
    ensures Covers(a, k, chunkSize) ==> NoHole(a, size, chunkSize)
  {
    if size > 0 {
      BlocksExactly(size, chunkSize, k);
      forall j: nat | j * chunkSize < size ensures j < k {
        BlocksExactly(size, chunkSize, j);
      }
    }
  }

  /** A new index without a hole is its zero slots, overlaid. */
  lemma FreshIsFilled(file: seq<byte>, a: Assignments, size: uint64, chunkSize: uint64, csum: Digest, uuid: Uuid,
                      ctime: uint64)
    requires LoopEnds(size, chunkSize) && NoHole(a, size, chunkSize)
    requires FileIs(file, BlankHeader().(magic := MAGIC_FIXED, size := size, chunkSize := chunkSize),
                    ZeroSlots(|a|))
    ensures Fits(|file|, a, Turns(size, chunkSize), chunkSize)
    ensures ClosesFresh(LaidBlocks(Stamped(file, csum, uuid, ctime), a, Turns(size, chunkSize), chunkSize),
                        Header(MAGIC_FIXED, uuid, ctime, csum, size, chunkSize), a)
  {
    var n, h := Turns(size, chunkSize), BlankHeader().(magic := MAGIC_FIXED, size := size, chunkSize := chunkSize);
    StampedIs(file, h, ZeroSlots(|a|), csum, uuid, ctime);
    if size > 0 {
      forall k: nat | k < n ensures k * chunkSize in a {
        BlocksExactly(size, chunkSize, k);
      }
      SlotIsThere(a, n, chunkSize);
      AllBlocks(ZeroSlots(|a|), a, size, chunkSize);
    }
    var stamped, head := Stamped(file, csum, uuid, ctime), Header(MAGIC_FIXED, uuid, ctime, csum, size, chunkSize);
    SlotsFit(stamped, head, ZeroSlots(|a|), a, n, chunkSize);
    LaidIsOverlaid(stamped, head, ZeroSlots(|a|), a, n, chunkSize);
  }

  /** How the closing loop ends. */
  datatype Ending = Done | AtHole | OutOfRange

  class Writer {
    var assignments: Assignments
    var size: uint64
    var chunkSize: uint64
    /** The reuse-csum of the request, if there was one. */
    const reuses: bool

    constructor (size: uint64, chunkSize: uint64, reuses: bool)
      ensures assignments == map[] && this.size == size && this.chunkSize == chunkSize && this.reuses == reuses
    {
      assignments, this.size, this.chunkSize, this.reuses := map[], size, chunkSize, reuses;
    }

    /** PUT fixed_index. A digest that does not decode is reported, and assigned as far as it did. */
    method Assign(digests: seq<string>, offsets: seq<uint64>) returns (reply: AssignReply)
      requires chunkSize > 0
      modifies this`assignments
      ensures reply.LengthsDiffer? <==> |digests| != |offsets|
      ensures reply.OffBoundary? <==>
        |digests| == |offsets| && exists i :: 0 <= i < |offsets| && offsets[i] % chunkSize != 0
      ensures reply.Assigned? ==>
        assignments == AssignAll(old(assignments), digests, offsets) &&
        (reply.allDecoded <==> forall i :: 0 <= i < |digests| ==> DecodesFully(digests[i]))
      ensures !reply.Assigned? ==> assignments == old(assignments)
    {
      if |digests| != |offsets| {
        return LengthsDiffer;
      }
      for i := 0 to |digests|
        invariant forall j :: 0 <= j < i ==> offsets[j] % chunkSize == 0
      {
        if offsets[i] % chunkSize != 0 {
          return OffBoundary;
        }
      }
      var allDecoded := true;
      for i := 0 to |digests|
        invariant assignments == AssignAll(old(assignments), digests[..i], offsets[..i])
        invariant allDecoded <==> forall j :: 0 <= j < i ==> DecodesFully(digests[j])
      {
        assert digests[..i + 1][..i] == digests[..i] && offsets[..i + 1][..i] == offsets[..i];
        if !DecodesFully(digests[i]) {
          allDecoded := false;
        }
        assignments := assignments[offsets[i] := Decoded(digests[i])];
      }
      assert digests[..|digests|] == digests && offsets[..|offsets|] == offsets;
      return Assigned(allDecoded);
    }

    /** The file a close starts from, before its header is stamped. */
    method Fresh() returns (outFile: array<byte>)
      ensures fresh(outFile)
      ensures FileIs(outFile[..], BlankHeader().(magic := MAGIC_FIXED, size := size, chunkSize := chunkSize),
                     ZeroSlots(|assignments|))
    {
      var n := |assignments|;
      outFile := new byte[HEADER + 32 * n](_ => 0);
      assert outFile[..] == Zeros(HEADER + 32 * n);
      ZeroFile(n);
      ghost var h := BlankHeader();
      SetMagic(outFile[..], h, ZeroSlots(n), MAGIC_FIXED);
      CopyBytes(outFile, 0, MAGIC_FIXED);
      h := h.(magic := MAGIC_FIXED);
      SetSize(outFile[..], h, ZeroSlots(n), size);
      CopyBytes(outFile, 64, Put64(size));
      h := h.(size := size);
      SetChunkSize(outFile[..], h, ZeroSlots(n), chunkSize);
      CopyBytes(outFile, 72, Put64(chunkSize));
    }

    method Stamp(outFile: array<byte>, csum: Digest, uuid: Uuid, ctime: uint64)
      requires outFile.Length >= 64
      modifies outFile
      ensures outFile[..] == Stamped(old(outFile[..]), csum, uuid, ctime)
    {
      CopyBytes(outFile, 32, csum);
      CopyBytes(outFile, 8, uuid);
      CopyBytes(outFile, 24, Put64(ctime));
    }

    /**
     * Lays the assigned digests over the slots. It stops at the first hole of a
     * new index, and panics on a slot that a reused file has no room for.
     */
    method Fill(outFile: array<byte>) returns (ending: Ending)
      requires LoopEnds(size, chunkSize) && (!reuses ==> outFile.Length == HEADER + 32 * |assignments|)
      modifies outFile
      ensures ending.AtHole? <==> !reuses && !NoHole(assignments, size, chunkSize)
      ensures ending.OutOfRange? <==> reuses && !Fits(outFile.Length, assignments, Turns(size, chunkSize), chunkSize)
      ensures ending.Done? ==>
        Fits(outFile.Length, assignments, Turns(size, chunkSize), chunkSize) &&
        outFile[..] == LaidBlocks(old(outFile[..]), assignments, Turns(size, chunkSize), chunkSize)
    {
      var i: uint64, k: nat := 0, 0;
      while i < size
        invariant i == k * chunkSize && k <= Turns(size, chunkSize)
        invariant !reuses ==> Covers(assignments, k, chunkSize)
        invariant Fits(outFile.Length, assignments, k, chunkSize)
        invariant outFile[..] == LaidBlocks(old(outFile[..]), assignments, k, chunkSize)
        decreases size - i
      {
        BlockIsThere(assignments, size, chunkSize, k);
        if i !in assignments && !reuses {
          return AtHole;
        }
        if i in assignments {
          if HEADER + 32 * k + 32 > outFile.Length {
            return OutOfRange;
          }
          CopyBytes(outFile, HEADER + 32 * k, Cut(assignments[i]));
        }
        k := k + 1;
        i := i + chunkSize;
      }
      LoopIsOver(assignments, size, chunkSize, k);
      return Done;
    }

    /**
     * POST fixed_close, up to the bytes that are stored. `csum` is what the
     * query decodes to, with the room behind it; `reused` is what the store
     * holds under the reuse-csum, as it was read.
     */
    method Close(csum: seq<byte>, uuid: Uuid, ctime: uint64, reused: Option<Buffer>) returns (reply: CloseReply)
      requires !reuses ==> LoopEnds(size, chunkSize)
      requires reuses && reused.Some? && |reused.value.All()| >= 80 ==>
        LoopEnds(SizeIn(reused.value), ChunkSizeIn(reused.value))
      modifies this`size, this`chunkSize
      ensures reply.NoIndexToReuse? <==> reuses && reused.None?
      ensures reply.OutOfBounds? <==>
        (reuses ==> reused.Some?) && (|csum| < 32 || (reuses && !Reworkable(reused.value, assignments)))
      ensures reply.Hole? <==> !reuses && |csum| >= 32 && !NoHole(assignments, old(size), old(chunkSize))
      ensures !reuses ==> size == old(size) && chunkSize == old(chunkSize)
      ensures reply.Closed? && !reuses ==>
        ClosesFresh(reply.file, Header(MAGIC_FIXED, uuid, ctime, csum[..32], size, chunkSize), assignments)
      ensures reply.Closed? && reuses ==>
        size == SizeIn(reused.value) && chunkSize == ChunkSizeIn(reused.value) &&
        reply.file == Reworked(reused.value, csum[..32], uuid, ctime, assignments)
    {
      var outFile: array<byte>;
      if reuses {
        if reused.None? {
          return NoIndexToReuse;
        }
        var all := reused.value.All();
        if |all| < 80 {
          return OutOfBounds;
        }
        outFile := new byte[|all|](i requires 0 <= i < |all| => all[i]);
        assert outFile[..] == all;
        size := Get64(all[64..72]);
        chunkSize := Get64(all[72..80]);
      } else {
        outFile := Fresh();
      }
      if |csum| < 32 {
        return OutOfBounds;
      }
      ghost var was := outFile[..];
      Stamp(outFile, csum[..32], uuid, ctime);
      var ending := Fill(outFile);
      match ending
      case AtHole => return Hole;
      case OutOfRange => return OutOfBounds;
      case Done =>
        if reuses {
          return Closed(outFile[..|reused.value.data|]);
        }
        FreshIsFilled(was, assignments, size, chunkSize, csum[..32], uuid, ctime);
        return Closed(outFile[..]);
    }
  }
}
