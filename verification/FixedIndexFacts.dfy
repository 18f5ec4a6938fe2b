/** What a fixed index says once it is read back, after any number of incremental closes. */
module FixedIndexFacts {
  import opened Wrappers
  import opened Sums
  import opened ObjectKeys
  import opened IndexBytes
  import opened IndexFile
  import opened GcPlan
  import opened FixedIndex
  import Datastore

  function HexAll(slots: seq<Digest>): seq<string> {
    seq(|slots|, k requires 0 <= k < |slots| => HexOf(slots[k]))
  }

  lemma PayloadHoldsSlots(file: seq<byte>, slots: seq<Digest>)
    requires HasSlots(file, slots)
    ensures |Payload(file)| == 32 * |slots|
    ensures FixedDigests(Payload(file)) == HexAll(slots)
  {
    forall k | 0 <= k < |slots| ensures FixedEntry(Payload(file), k) == slots[k] {
      SliceOfSlice(file, HEADER, |file|, 32 * k, 32 * k + 32);
    }
  }

  /**
   * Round trip. What a close writes, the collector reads back: the size, and
   * one digest per slot in slot order. The client's checksum has to be the one
   * of the payload, and then nothing else can go wrong.
   */
  lemma ClosedParsesBack(key: string, file: seq<byte>, h: Header, slots: seq<Digest>, metadata: string, sha: Sha)
    requires FileIs(file, h, slots) && h.magic == MAGIC_FIXED && HasSuffix(key, FIXED_SUFFIX)
    ensures Parsed(key, file, metadata, sha).Ok? <==> h.csum == sha(Payload(file)) && metadata == HexOf(h.csum)
    ensures Parsed(key, file, metadata, sha).Ok? ==>
      Parsed(key, file, metadata, sha).value == ParsedIndex(metadata, HexAll(slots), h.size)
  {
    PayloadHoldsSlots(file, slots);
    Word64RoundTrip(h.size);
    assert file[..8] == file[0..8];
  }

  // -------------------------------------------------------- incremental chains

  /** The slots after the first close of a chain and the reuses that follow it. */
  function Chained(chain: seq<Assignments>, size: nat, chunkSize: nat): (slots: seq<Digest>)
    requires chain != []
  {
    if |chain| == 1 then Overlaid(ZeroSlots(|chain[0]|), chain[0], size, chunkSize)
    else Overlaid(Chained(chain[..|chain| - 1], size, chunkSize), chain[|chain| - 1], size, chunkSize)
  }

  /** The last value assigned to an offset along the chain. */
  function LastAssigned(chain: seq<Assignments>, offset: nat): Option<seq<byte>> {
    if chain == [] then None
    else
      var last := chain[|chain| - 1];
      if offset in last then Some(last[offset]) else LastAssigned(chain[..|chain| - 1], offset)
  }

  predicate AllDigests(a: Assignments) {
    forall o :: o in a ==> |a[o]| == 32
  }

  /** Last writer wins: each block of the last index holds the last digest assigned to its offset. */
  lemma {:induction false} LastWriterWins(chain: seq<Assignments>, size: nat, chunkSize: nat, j: nat)
    requires chain != [] && chunkSize > 0 && size + chunkSize <= TWO_64
    requires NoHole(chain[0], size, chunkSize) && forall a :: a in chain ==> AllDigests(a)
    requires j * chunkSize < size
    ensures |Chained(chain, size, chunkSize)| == |chain[0]| && j < |chain[0]|
    ensures LastAssigned(chain, j * chunkSize) == Some(Chained(chain, size, chunkSize)[j])
    decreases |chain|
  {
    BlockIsThere(chain[0], size, chunkSize, j);
    AllCoveredSoFar(chain[0], size, chunkSize, j);
    var n := |chain| - 1;
    if n == 0 {
      assert chain[0] in chain;
      assert LastAssigned(chain, j * chunkSize) == Some(chain[0][j * chunkSize]);
    } else {
      assert forall a :: a in chain[..n] ==> a in chain;
      LastWriterWins(chain[..n], size, chunkSize, j);
      assert chain[n] in chain;
    }
  }

  lemma AllCoveredSoFar(a: Assignments, size: nat, chunkSize: nat, j: nat)
    requires chunkSize > 0 && NoHole(a, size, chunkSize) && j * chunkSize < size
    ensures Covers(a, j + 1, chunkSize) && j < |a|
  {
    forall k: nat | k < j + 1 ensures k * chunkSize in a {
      MulAtMost(k, j, chunkSize);
    }
    SlotIsThere(a, j + 1, chunkSize);
  }

  lemma {:induction false} ChainLength(chain: seq<Assignments>, size: nat, chunkSize: nat)
    requires chain != []
    ensures |Chained(chain, size, chunkSize)| == |chain[0]|
    decreases |chain|
  {
    if |chain| > 1 {
      ChainLength(chain[..|chain| - 1], size, chunkSize);
    }
  }

  predicate Aligned(a: Assignments, chunkSize: nat)
    requires chunkSize > 0
  {
    forall o :: o in a ==> o % chunkSize == 0
  }

  /** The offsets a new index has to have: as many as there are blocks. */
  lemma BlocksAreAssigned(a: Assignments, size: nat, chunkSize: nat)
    requires chunkSize > 0 && NoHole(a, size, chunkSize)
    ensures Blocks(size, chunkSize) <= |a|
    ensures forall o :: o in FirstOffsets(Blocks(size, chunkSize), chunkSize) ==> o in a
  {
    var n := Blocks(size, chunkSize);
    forall k: nat | k < n ensures k * chunkSize in a {
      BlocksExactly(size, chunkSize, k);
    }
    SlotIsThere(a, n, chunkSize);
  }

  lemma OffsetIsAMultiple(o: nat, chunkSize: nat)
    requires chunkSize > 0 && o % chunkSize == 0
    ensures o == (o / chunkSize) * chunkSize
  {
  }

  /**
   * The length of the file is 4096 bytes and 32 for each block exactly when no
   * offset was assigned at or beyond the size. Every such offset adds a slot
   * of zeros at the end, and a digest that no chunk has.
   */
  lemma LengthIsExactIffInRange(a: Assignments, size: nat, chunkSize: nat, file: seq<byte>, h: Header)
    requires chunkSize > 0 && size + chunkSize <= TWO_64 && NoHole(a, size, chunkSize) && Aligned(a, chunkSize)
    requires FileIs(file, h, Overlaid(ZeroSlots(|a|), a, size, chunkSize))
    ensures |file| == HEADER + 32 * Blocks(size, chunkSize) <==> forall o :: o in a ==> o < size
    ensures forall k :: Blocks(size, chunkSize) <= k < |a| ==>
      Overlaid(ZeroSlots(|a|), a, size, chunkSize)[k] == NO_DIGEST
  {
    var n := Blocks(size, chunkSize);
    var firsts := FirstOffsets(n, chunkSize);
    BlocksAreAssigned(a, size, chunkSize);
    OffsetsAreDistinct(n, chunkSize);
    var keys: set<nat> := set o: nat | o in a.Keys;
    SameSize(a.Keys, keys);
    SubsetIsSmaller(firsts, keys);
    forall o | o in keys ensures o in firsts <==> o < size {
      OffsetIsAMultiple(o, chunkSize);
      BlocksExactly(size, chunkSize, o / chunkSize);
      if o in firsts {
        var k: nat :| k < n && o == k * chunkSize;
        BlocksExactly(size, chunkSize, k);
      }
    }
    forall k | n <= k < |a| ensures !(k * chunkSize < size) {
      BlocksExactly(size, chunkSize, k);
    }
    if |a| == n {
      assert keys == firsts;
      assert forall o :: o in a ==> o in keys;
    }
    if forall o :: o in a ==> o < size {
      assert keys == firsts;
    }
  }

  /** A closed index can be reused: closing it again never runs out of slots. */
  lemma ClosedIsReusable(a: Assignments, file: seq<byte>, h: Header)
    requires h.chunkSize > 0 && h.size + h.chunkSize <= TWO_64 && NoHole(a, h.size, h.chunkSize)
    requires ClosesFresh(file, h, a)
    ensures Reusable(file, h, Overlaid(ZeroSlots(|a|), a, h.size, h.chunkSize))
  {
    BlocksAreAssigned(a, h.size, h.chunkSize);
  }

  lemma ReusedIsReusable(was: seq<byte>, file: seq<byte>, h: Header, h': Header, slots: seq<Digest>, a: Assignments)
    requires Reusable(was, h, slots) && ClosesReused(file, h', h, slots, a)
    ensures Reusable(file, h', Overlaid(slots, a, h.size, h.chunkSize))
  {
  }

  // --------------------------------------------------------- chains of files

  /**
   * Stored files, each but the first the result of closing a writer that
   * reuses the one before. Whatever slots the reused file has, the contract of
   * the close holds for them.
   */
  ghost predicate ChainOfFiles(files: seq<seq<byte>>, heads: seq<Header>, chain: seq<Assignments>) {
    && |files| == |heads| == |chain| > 0
    && heads[0].magic == MAGIC_FIXED && heads[0].chunkSize > 0 && heads[0].size + heads[0].chunkSize <= TWO_64
    && NoHole(chain[0], heads[0].size, heads[0].chunkSize) && ClosesFresh(files[0], heads[0], chain[0])
    && (forall n, slots :: 0 <= n < |files| - 1 && Reusable(files[n], heads[n], slots) ==>
          ClosesReused(files[n + 1], heads[n + 1], heads[n], slots, chain[n + 1]))
  }

  /** The n-th file is reusable in turn, says the same size, and holds the slots of the chain up to there. */
  lemma {:induction false} ChainHolds(files: seq<seq<byte>>, heads: seq<Header>, chain: seq<Assignments>, n: nat)
    requires ChainOfFiles(files, heads, chain) && n < |files|
    ensures heads[n].magic == MAGIC_FIXED
    ensures heads[n].size == heads[0].size && heads[n].chunkSize == heads[0].chunkSize
    ensures Reusable(files[n], heads[n], Chained(chain[..n + 1], heads[0].size, heads[0].chunkSize))
    decreases n
  {
    var size, chunkSize := heads[0].size, heads[0].chunkSize;
    if n == 0 {
      ClosedIsReusable(chain[0], files[0], heads[0]);
      assert chain[..1] == [chain[0]];
    } else {
      ChainHolds(files, heads, chain, n - 1);
      var slots := Chained(chain[..n], size, chunkSize);
      assert chain[..n + 1][..n] == chain[..n];
      ReusedIsReusable(files[n - 1], files[n], heads[n - 1], heads[n], slots, chain[n]);
    }
  }

  /** Digest j is the one last assigned to the offset of block j, for every block. */
  ghost predicate HoldsLast(digests: seq<string>, chain: seq<Assignments>, blocks: nat, chunkSize: nat) {
    blocks <= |digests| &&
    forall j: nat :: j < blocks ==>
      LastAssigned(chain, j * chunkSize).Some? && digests[j] == HexOf(LastAssigned(chain, j * chunkSize).value)
  }

  lemma SlotsHoldLast(chain: seq<Assignments>, size: nat, chunkSize: nat)
    requires chain != [] && chunkSize > 0 && size + chunkSize <= TWO_64
    requires NoHole(chain[0], size, chunkSize) && forall a :: a in chain ==> AllDigests(a)
    ensures HoldsLast(HexAll(Chained(chain, size, chunkSize)), chain, Blocks(size, chunkSize), chunkSize)
  {
    BlocksAreAssigned(chain[0], size, chunkSize);
    ChainLength(chain, size, chunkSize);
    forall j: nat | j < Blocks(size, chunkSize)
      ensures LastAssigned(chain, j * chunkSize).Some?
      ensures HexAll(Chained(chain, size, chunkSize))[j] == HexOf(LastAssigned(chain, j * chunkSize).value)
    {
      BlocksExactly(size, chunkSize, j);
      LastWriterWins(chain, size, chunkSize, j);
    }
  }

  /**
   * Incremental backups, read back. The last file of a chain is 4096 bytes and
   * 32 for each block long, exactly when the first close assigned no offset at
   * or beyond the size. With the checksum of its payload it parses to the size
   * of the first, and block j is the digest last assigned to its offset.
   */
  lemma ChainReadsBack(key: string, files: seq<seq<byte>>, heads: seq<Header>, chain: seq<Assignments>, sha: Sha)
    requires ChainOfFiles(files, heads, chain) && HasSuffix(key, FIXED_SUFFIX)
    requires (forall a :: a in chain ==> AllDigests(a)) && Aligned(chain[0], heads[0].chunkSize)
    requires |files[|files| - 1]| >= HEADER && heads[|files| - 1].csum == sha(Payload(files[|files| - 1]))
    ensures var last, size, chunkSize := files[|files| - 1], heads[0].size, heads[0].chunkSize;
      var parsed := Parsed(key, last, HexOf(heads[|files| - 1].csum), sha);
      && (|last| == HEADER + 32 * Blocks(size, chunkSize) <==> forall o :: o in chain[0] ==> o < size)
      && parsed.Ok? && parsed.value.logicalSize == size && |last| == HEADER + 32 * |parsed.value.digests|
      && HoldsLast(parsed.value.digests, chain, Blocks(size, chunkSize), chunkSize)
  {
    var n := |files| - 1;
    var size, chunkSize := heads[0].size, heads[0].chunkSize;
    var slots := Chained(chain, size, chunkSize);
    assert chain[..n + 1] == chain;
    ChainHolds(files, heads, chain, n);
    ChainLength(chain, size, chunkSize);
    SlotsHoldLast(chain, size, chunkSize);
    ClosedParsesBack(key, files[n], heads[n], slots, HexOf(heads[n].csum), sha);
    LengthIsExactIffInRange(chain[0], size, chunkSize, files[0], heads[0]);
    assert |files[n]| == |files[0]|;
  }

  // ------------------------------------- the close steps of the shared bucket

  /** Assignments by block number and in hexadecimal, as the bucket model has them. */
  ghost function ByBlock(a: Assignments, n: nat, chunkSize: nat): map<nat, string> {
    map k: nat | k < n && k * chunkSize in a :: HexOf(a[k * chunkSize])
  }

  /** In hexadecimal, reusing an index is overwriting the digests of the assigned blocks. */
  lemma CloseOverwritesBlocks(slots: seq<Digest>, a: Assignments, size: nat, chunkSize: nat)
    requires chunkSize > 0 && AllDigests(a) && forall o :: o in a ==> o < size
    ensures HexAll(Overlaid(slots, a, size, chunkSize)) ==
      Datastore.Overlay(HexAll(slots), ByBlock(a, |slots|, chunkSize))
  {
  }

  /** Closing a new index with no offset out of range is overlaying nothing with every block. */
  lemma FreshCloseNamesEveryBlock(a: Assignments, size: nat, chunkSize: nat, file: seq<byte>, h: Header)
    requires chunkSize > 0 && size + chunkSize <= TWO_64 && NoHole(a, size, chunkSize) && Aligned(a, chunkSize)
    requires AllDigests(a) && forall o :: o in a ==> o < size
    requires FileIs(file, h, Overlaid(ZeroSlots(|a|), a, size, chunkSize))
    ensures var blocks := ByBlock(a, |a|, chunkSize);
      && (forall k: nat :: k in blocks <==> k < |a|)
      && HexAll(Overlaid(ZeroSlots(|a|), a, size, chunkSize)) == Datastore.Overlay(seq(|a|, _ => ""), blocks)
  {
    LengthIsExactIffInRange(a, size, chunkSize, file, h);
    forall k: nat | k < |a| ensures k * chunkSize in a {
      BlocksExactly(size, chunkSize, k);
    }
  }
}
