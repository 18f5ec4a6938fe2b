/** What a dynamic index says once it is read back, and when closing it fails. */
module DynamicIndexFacts {
  import opened Wrappers
  import opened Sums
  import opened ObjectKeys
  import opened IndexBytes
  import opened IndexFile
  import opened FixedIndex
  import opened FixedIndexFacts
  import opened DynamicIndex
  import opened GcPlan

  // --------------------------------------------------------- entries of a body

  predicate PlacesDigests(a: Placed) {
    forall k :: k in a ==> |a[k]| == 32
  }

  predicate Writable(keys: seq<int64>, a: Placed, sizes: SizeMap) {
    forall k :: k in keys ==> k in a && HexOf(a[k]) in sizes
  }

  lemma LastSlices(front: seq<byte>, word: seq<byte>, digest: seq<byte>)
    requires |word| == 8 && |digest| == 32
    ensures var body := front + word + digest;
      && |body| == |front| + 40
      && body[|front|..|front| + 8] == word && body[|front| + 8..|front| + 40] == digest
  {
  }

  lemma FrontSlices(front: seq<byte>, more: seq<byte>, a: nat, b: nat)
    requires a <= b <= |front|
    ensures (front + more)[a..b] == front[a..b]
  {
  }

  predicate AllWhole(entries: seq<Entry>) {
    forall i :: 0 <= i < |entries| ==> |entries[i].digest| == 32
  }

  lemma {:induction false} EntryBytesLength(entries: seq<Entry>)
    requires AllWhole(entries)
    ensures |EntryBytes(entries)| == 40 * |entries|
  {
    if entries != [] {
      EntryBytesLength(entries[..|entries| - 1]);
    }
  }

  /** Reading entry i gives entry i back. */
  lemma {:induction false} EntryRoundTrip(entries: seq<Entry>, i: nat)
    requires AllWhole(entries) && i < |entries|
    ensures |EntryBytes(entries)| == 40 * |entries|
    ensures EndOffset(EntryBytes(entries), i) == entries[i].end
    ensures DynamicEntry(EntryBytes(entries), i) == entries[i].digest
    decreases |entries|
  {
    var n := |entries| - 1;
    var front, word, digest := EntryBytes(entries[..n]), Put64(entries[n].end), entries[n].digest;
    EntryBytesLength(entries);
    EntryBytesLength(entries[..n]);
    if i < n {
      EntryRoundTrip(entries[..n], i);
      FrontSlices(front, word + digest, 40 * i, 40 * i + 8);
      FrontSlices(front, word + digest, 40 * i + 8, 40 * i + 40);
      assert front + word + digest == front + (word + digest);
    } else {
      LastSlices(front, word, digest);
      Word64RoundTrip(entries[n].end);
    }
  }

  function Texts(entries: seq<Entry>): seq<string> {
    seq(|entries|, i requires 0 <= i < |entries| => HexOf(entries[i].digest))
  }

  lemma BytesGiveTexts(entries: seq<Entry>)
    requires AllWhole(entries)
    ensures |EntryBytes(entries)| == 40 * |entries|
    ensures DynamicDigests(EntryBytes(entries)) == Texts(entries)
    ensures entries != [] ==> EndOffset(EntryBytes(entries), |entries| - 1) == entries[|entries| - 1].end
  {
    EntryBytesLength(entries);
    var payload := EntryBytes(entries);
    forall i | 0 <= i < |entries|
      ensures DynamicEntry(payload, i) == entries[i].digest && EndOffset(payload, i) == entries[i].end
    {
      EntryRoundTrip(entries, i);
    }
  }

  lemma {:induction false} EntriesAt(keys: seq<int64>, a: Placed, sizes: SizeMap, i: nat)
    requires Writable(keys, a, sizes)
    ensures |EntriesOf(keys, a, sizes)| == |keys|
    ensures i < |keys| ==>
      keys[i] in keys && EntriesOf(keys, a, sizes)[i] == Entry(EndOf(a, sizes, keys[i]), a[keys[i]])
    decreases |keys|
  {
    if keys != [] {
      var n := |keys| - 1;
      EntriesAt(keys[..n], a, sizes, i);
      if i < n {
        assert keys[..n][i] == keys[i];
      }
    }
  }

  lemma ClosedFileParts(a: Placed, sizes: SizeMap, uuid: Uuid, ctime: uint64, csum: Digest)
    requires SizesKnown(a, sizes)
    ensures Writable(Order(a.Keys), a, sizes)
    ensures var file := ClosedFile(a, sizes, uuid, ctime, csum);
      && |file| >= HEADER && Payload(file) == EntryBytes(EntriesOf(Order(a.Keys), a, sizes))
      && file[..8] == MAGIC_DYNAMIC && file[32..64] == csum
  {
    OrderIsPlaced(a, sizes);
    var head := DynamicHeader(uuid, ctime, csum);
    var body := Body(Order(a.Keys), a, sizes);
    HeaderParts(uuid, ctime, csum);
    FrontSlices(head, body, 0, 8);
    FrontSlices(head, body, 32, 64);
    assert (head + body)[HEADER..] == body;
  }

  lemma HeaderParts(uuid: Uuid, ctime: uint64, csum: Digest)
    ensures DynamicHeader(uuid, ctime, csum)[0..8] == MAGIC_DYNAMIC
    ensures DynamicHeader(uuid, ctime, csum)[32..64] == csum
  {
    var front := MAGIC_DYNAMIC + uuid + Put64(ctime);
    assert |front| == 32;
    assert DynamicHeader(uuid, ctime, csum) == front + csum + Zeros(4032);
    assert (front + csum + Zeros(4032))[32..64] == csum;
  }

  lemma WholeEntries(keys: seq<int64>, a: Placed, sizes: SizeMap)
    requires Writable(keys, a, sizes) && PlacesDigests(a)
    ensures AllWhole(EntriesOf(keys, a, sizes)) && |EntriesOf(keys, a, sizes)| == |keys|
  {
    EntriesAt(keys, a, sizes, 0);
    forall i | 0 <= i < |keys| ensures |EntriesOf(keys, a, sizes)[i].digest| == 32 {
      EntriesAt(keys, a, sizes, i);
    }
  }

  /** The lines of a closed index, by ascending offset. */
  ghost function LinesOf(a: Placed, sizes: SizeMap): seq<Entry>
    requires SizesKnown(a, sizes)
  {
    OrderIsPlaced(a, sizes);
    EntriesOf(Order(a.Keys), a, sizes)
  }

  lemma ParsedEntries(key: string, file: seq<byte>, entries: seq<Entry>, metadata: string, sha: Sha)
    requires HasSuffix(key, DYNAMIC_SUFFIX) && AllWhole(entries)
    requires |file| >= HEADER && Payload(file) == EntryBytes(entries) && file[..8] == MAGIC_DYNAMIC
    ensures Parsed(key, file, metadata, sha).Ok? <==> SumsAgree(file, metadata, sha)
    ensures Parsed(key, file, metadata, sha).Ok? ==>
      Parsed(key, file, metadata, sha).value ==
        ParsedIndex(metadata, Texts(entries), if entries == [] then 0 else entries[|entries| - 1].end)
  {
    if HasSuffix(key, FIXED_SUFFIX) {
      SuffixesDiffer(key);
    }
    BytesGiveTexts(entries);
  }

  /**
   * Read back, a dynamic index lists the assigned digests by ascending offset,
   * and its logical size is where the chunk with the greatest offset ends.
   */
  lemma ClosedParsesByOffset(key: string, a: Placed, sizes: SizeMap, uuid: Uuid, ctime: uint64, csum: Digest,
                             metadata: string, sha: Sha)
    requires SizesKnown(a, sizes) && PlacesDigests(a) && HasSuffix(key, DYNAMIC_SUFFIX)
    ensures var file, lines := ClosedFile(a, sizes, uuid, ctime, csum), LinesOf(a, sizes);
      && |file| == HEADER + 40 * |lines|
      && (Parsed(key, file, metadata, sha).Ok? <==> csum == sha(Payload(file)) && metadata == HexOf(csum))
      && (Parsed(key, file, metadata, sha).Ok? ==>
            Parsed(key, file, metadata, sha).value ==
              ParsedIndex(metadata, Texts(lines), if lines == [] then 0 else lines[|lines| - 1].end))
  {
    var file, lines := ClosedFile(a, sizes, uuid, ctime, csum), LinesOf(a, sizes);
    ClosedFileParts(a, sizes, uuid, ctime, csum);
    WholeEntries(Order(a.Keys), a, sizes);
    EntryBytesLength(lines);
    ParsedEntries(key, file, lines, metadata, sha);
  }

  // -------------------------------------------------------------- tiled streams

  /** Where the n chunks of a stream are cut: chunk i is [cuts[i], cuts[i + 1]). */
  predicate AreCuts(cuts: seq<int64>, n: nat) {
    |cuts| == n + 1 && cuts[0] == 0 && Ascending(cuts)
  }

  /** The recorded size of every chunk of the stream is the length it was cut to. */
  predicate Measured(stream: seq<Digest>, sizes: SizeMap, cuts: seq<int64>)
    requires AreCuts(cuts, |stream|)
  {
    forall i :: 0 <= i < |stream| ==> HexOf(stream[i]) in sizes && sizes[HexOf(stream[i])] == cuts[i + 1] - cuts[i]
  }

  /** The assignments put each chunk of the stream where it starts, and nothing anywhere else. */
  ghost predicate Tiles(a: Placed, stream: seq<Digest>, cuts: seq<int64>)
    requires AreCuts(cuts, |stream|)
  {
    && a.Keys == KeySet(cuts[..|stream|])
    && forall i :: 0 <= i < |stream| ==> cuts[i] in a && a[cuts[i]] == stream[i]
  }

  lemma TiledIsWritable(a: Placed, stream: seq<Digest>, sizes: SizeMap, cuts: seq<int64>)
    requires AreCuts(cuts, |stream|) && Measured(stream, sizes, cuts) && Tiles(a, stream, cuts)
    ensures SizesKnown(a, sizes) && PlacesDigests(a) && Order(a.Keys) == cuts[..|stream|]
    ensures Writable(cuts[..|stream|], a, sizes)
  {
    var starts := cuts[..|stream|];
    AscendingIsOrder(starts);
    forall k | k in a ensures HexOf(a[k]) in sizes && |a[k]| == 32 {
      var i :| 0 <= i < |starts| && starts[i] == k;
    }
    forall k | k in starts ensures k in a {
      assert k in KeySet(starts);
    }
  }

  lemma NoWrap(k: int64, size: uint64, next: int64)
    requires k >= 0 && k + size == next
    ensures Add64(Unsigned(k), size) == next
  {
  }

  /** Line i says that chunk i ends where chunk i + 1 starts. */
  lemma TiledLine(a: Placed, stream: seq<Digest>, sizes: SizeMap, cuts: seq<int64>, i: nat)
    requires AreCuts(cuts, |stream|) && Measured(stream, sizes, cuts) && Tiles(a, stream, cuts) && i < |stream|
    requires Writable(cuts[..|stream|], a, sizes)
    ensures var lines := EntriesOf(cuts[..|stream|], a, sizes);
      |lines| == |stream| && lines[i].end == cuts[i + 1] && lines[i].digest == stream[i]
  {
    EntriesAt(cuts[..|stream|], a, sizes, i);
    assert cuts[..|stream|][i] == cuts[i];
    assert i > 0 ==> cuts[0] < cuts[i];
    NoWrap(cuts[i], sizes[HexOf(stream[i])], cuts[i + 1]);
  }

  predicate LinesTile(lines: seq<Entry>, stream: seq<Digest>, cuts: seq<int64>) {
    |lines| == |stream| == |cuts| - 1 &&
    forall i :: 0 <= i < |stream| ==> lines[i].end == cuts[i + 1] && lines[i].digest == stream[i]
  }

  lemma TiledLines(a: Placed, stream: seq<Digest>, sizes: SizeMap, cuts: seq<int64>)
    requires AreCuts(cuts, |stream|) && Measured(stream, sizes, cuts) && Tiles(a, stream, cuts)
    ensures SizesKnown(a, sizes) && PlacesDigests(a) && LinesTile(LinesOf(a, sizes), stream, cuts)
  {
    TiledIsWritable(a, stream, sizes, cuts);
    var lines := EntriesOf(cuts[..|stream|], a, sizes);
    EntriesAt(cuts[..|stream|], a, sizes, 0);
    forall i | 0 <= i < |stream| ensures lines[i].end == cuts[i + 1] && lines[i].digest == stream[i] {
      TiledLine(a, stream, sizes, cuts, i);
    }
  }

  lemma LinesGiveStream(lines: seq<Entry>, stream: seq<Digest>, cuts: seq<int64>)
    requires LinesTile(lines, stream, cuts)
    ensures Texts(lines) == HexAll(stream) && AllWhole(lines)
  {
  }

  /**
   * Round trip of a stream. Tiled assignments come back as the stream: every
   * digest in order, and as logical size the length of the stream.
   */
  lemma StreamRoundTrip(key: string, a: Placed, stream: seq<Digest>, sizes: SizeMap, cuts: seq<int64>,
                        uuid: Uuid, ctime: uint64, csum: Digest, sha: Sha)
    requires AreCuts(cuts, |stream|) && Measured(stream, sizes, cuts) && Tiles(a, stream, cuts)
    requires HasSuffix(key, DYNAMIC_SUFFIX)
    ensures SizesKnown(a, sizes)
    ensures var file := ClosedFile(a, sizes, uuid, ctime, csum);
      |file| == HEADER + 40 * |stream| && cuts[|stream|] >= 0 &&
      (csum == sha(Payload(file)) ==>
        Parsed(key, file, HexOf(csum), sha) == Ok(ParsedIndex(HexOf(csum), HexAll(stream), cuts[|stream|])))
  {
    TiledLines(a, stream, sizes, cuts);
    ClosedParsesByOffset(key, a, sizes, uuid, ctime, csum, HexOf(csum), sha);
    LinesGiveStream(LinesOf(a, sizes), stream, cuts);
  }

  /** In the file, the end offset of each chunk is where the next one starts: strictly increasing. */
  lemma EndsAscend(a: Placed, stream: seq<Digest>, sizes: SizeMap, cuts: seq<int64>,
                   uuid: Uuid, ctime: uint64, csum: Digest, i: nat)
    requires AreCuts(cuts, |stream|) && Measured(stream, sizes, cuts) && Tiles(a, stream, cuts) && i < |stream|
    ensures SizesKnown(a, sizes)
    ensures var payload := Payload(ClosedFile(a, sizes, uuid, ctime, csum));
      |payload| == 40 * |stream| && EndOffset(payload, i) == cuts[i + 1] > cuts[i]
  {
    TiledLines(a, stream, sizes, cuts);
    LinesGiveStream(LinesOf(a, sizes), stream, cuts);
    ClosedFileParts(a, sizes, uuid, ctime, csum);
    EntryRoundTrip(LinesOf(a, sizes), i);
  }
}
