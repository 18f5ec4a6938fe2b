/** A stream sent as a dynamic index, over the requests of a whole session: what is read back from the file. */
module DynamicStreams {
  import opened Wrappers
  import opened Sums
  import opened ObjectKeys
  import opened IndexBytes
  import opened IndexFile
  import opened GcPlan
  import opened FixedIndex
  import opened FixedIndexFacts
  import opened DynamicIndex
  import opened DynamicIndexFacts
  import opened DynamicSessions
  import FS = FixedSessions

  /** Where chunk j of a stream starts: after the chunks before it. */
  function StartOf(lengths: seq<uint64>, j: nat): nat
    requires j <= |lengths|
  {
    if j == 0 then 0 else StartOf(lengths, j - 1) + lengths[j - 1]
  }

  /** A stream of chunks none of which is empty, shorter than 2^63 bytes, with its digests in lower case. */
  predicate IsStream(stream: seq<string>, lengths: seq<uint64>) {
    && |stream| == |lengths| && StartOf(lengths, |lengths|) < 0x8000_0000_0000_0000
    && (forall j :: 0 <= j < |lengths| ==> lengths[j] > 0)
    && (forall j :: 0 <= j < |stream| ==> IsDigest(stream[j]) && IsLowerHex(stream[j]))
  }

  /** The event assigns this digest text to this offset. */
  predicate Sends(e: Event, text: string, offset: nat) {
    e.Put? && exists i :: 0 <= i < |e.digests| && i < |e.offsets| && e.digests[i] == text && e.offsets[i] == offset
  }

  /** Whatever the event assigns is a chunk of the stream at its own start. */
  predicate SendsOnly(e: Event, stream: seq<string>, lengths: seq<uint64>)
    requires |stream| == |lengths|
  {
    e.Put? ==> forall i :: 0 <= i < |e.digests| && i < |e.offsets| ==>
      IsChunkAt(stream, lengths, e.digests[i], e.offsets[i])
  }

  predicate IsChunkAt(stream: seq<string>, lengths: seq<uint64>, text: string, offset: nat)
    requires |stream| == |lengths|
  {
    exists j :: 0 <= j < |stream| && stream[j] == text && StartOf(lengths, j) == offset
  }

  /** If the event says how long the chunk with this digest is, it says this. */
  predicate Agrees(e: Event, text: string, length: uint64) {
    match e
    case Uploaded(digest, size) => digest == text ==> size == length
    case Loaded(side) => text in side ==> side[text] == length
    case Put(_, _) => true
  }

  /**
   * The session sends the stream: every chunk at its start, and nothing else,
   * in any order and over any requests; and it is told the length of every
   * chunk, by an upload or by a side file, and never another.
   */
  ghost predicate SendsStream(events: seq<Event>, stream: seq<string>, lengths: seq<uint64>)
    requires |stream| == |lengths|
  {
    && (forall n :: 0 <= n < |events| ==> SendsOnly(events[n], stream, lengths))
    && (forall j :: 0 <= j < |stream| ==> IsSent(events, stream[j], StartOf(lengths, j)))
    && (forall j :: 0 <= j < |stream| ==> Backed(events, stream[j]))
    && (forall n, j :: 0 <= n < |events| && 0 <= j < |stream| ==> Agrees(events[n], stream[j], lengths[j]))
  }

  ghost predicate IsSent(events: seq<Event>, text: string, offset: nat) {
    exists n :: 0 <= n < |events| && Sends(events[n], text, offset)
  }

  // --------------------------------------------------------------------- sizes

  /** What is known about a digest is what every event that says so agrees on. */
  lemma {:induction false} SizeIsAgreed(events: seq<Event>, text: string, length: uint64)
    requires forall n :: 0 <= n < |events| ==> Agrees(events[n], text, length)
    ensures text in Replay(events).recorded ==> Replay(events).recorded[text] == length
    ensures text in Replay(events).known ==> Replay(events).known[text] == length
    decreases |events|
  {
    if events != [] {
      SizeIsAgreed(events[..|events| - 1], text, length);
      assert Agrees(events[|events| - 1], text, length);
    }
  }

  // -------------------------------------------------------------- assignments

  lemma {:induction false} StartsAscend(lengths: seq<uint64>, i: nat, j: nat)
    requires i < j <= |lengths| && forall k :: 0 <= k < |lengths| ==> lengths[k] > 0
    ensures StartOf(lengths, i) < StartOf(lengths, j)
    decreases j
  {
    if i < j - 1 {
      StartsAscend(lengths, i, j - 1);
    }
  }

  lemma {:induction false} StartsInRange(lengths: seq<uint64>, i: nat)
    requires i <= |lengths|
    ensures StartOf(lengths, i) <= StartOf(lengths, |lengths|)
    decreases |lengths| - i
  {
    if i < |lengths| {
      StartsInRange(lengths, i + 1);
    }
  }

  /** What is at an offset is a chunk of the stream that starts there. */
  ghost predicate IsPlacedAt(a: Placed, stream: seq<string>, lengths: seq<uint64>, k: int64)
    requires |stream| == |lengths|
  {
    k in a ==> exists j :: 0 <= j < |stream| && StartOf(lengths, j) == k && a[k] == Decoded(stream[j])
  }

  ghost predicate PlacesOnly(a: Placed, stream: seq<string>, lengths: seq<uint64>)
    requires |stream| == |lengths|
  {
    forall k :: IsPlacedAt(a, stream, lengths, k)
  }

  lemma ChunkIsPlaced(a: Placed, stream: seq<string>, lengths: seq<uint64>, text: string, offset: uint64)
    requires IsStream(stream, lengths) && PlacesOnly(a, stream, lengths) && IsChunkAt(stream, lengths, text, offset)
    ensures Signed(offset) == offset && PlacesOnly(a[Signed(offset) := Decoded(text)], stream, lengths)
  {
    var j :| 0 <= j < |stream| && stream[j] == text && StartOf(lengths, j) == offset;
    StartsInRange(lengths, j);
    var after := a[Signed(offset) := Decoded(text)];
    forall k ensures IsPlacedAt(after, stream, lengths, k) {
      assert IsPlacedAt(a, stream, lengths, k);
    }
  }

  /** One request places chunks where they start, keeps what is placed, and places all it names. */
  lemma {:induction false} RequestPlaces(before: Placed, stream: seq<string>, lengths: seq<uint64>,
                                         digests: seq<string>, offsets: seq<uint64>)
    requires IsStream(stream, lengths) && PlacesOnly(before, stream, lengths) && |digests| == |offsets|
    requires forall i :: 0 <= i < |digests| ==> IsChunkAt(stream, lengths, digests[i], offsets[i])
    ensures PlacesOnly(PlaceAll(before, digests, offsets), stream, lengths)
    ensures before.Keys <= PlaceAll(before, digests, offsets).Keys
    ensures forall i :: 0 <= i < |offsets| ==> offsets[i] < TWO_63 && offsets[i] in PlaceAll(before, digests, offsets)
    decreases |digests|
  {
    if digests != [] {
      var n := |digests| - 1;
      RequestPlaces(before, stream, lengths, digests[..n], offsets[..n]);
      ChunkIsPlaced(PlaceAll(before, digests[..n], offsets[..n]), stream, lengths, digests[n], offsets[n]);
      forall i | 0 <= i < |offsets|
        ensures offsets[i] < TWO_63 && offsets[i] in PlaceAll(before, digests, offsets)
      {
        if i < n {
          assert offsets[..n][i] == offsets[i];
        }
      }
    }
  }

  lemma EventPlaces(s: Session, e: Event, stream: seq<string>, lengths: seq<uint64>)
    requires IsStream(stream, lengths) && PlacesOnly(s.assignments, stream, lengths) && SendsOnly(e, stream, lengths)
    ensures PlacesOnly(After(s, e).assignments, stream, lengths)
    ensures s.assignments.Keys <= After(s, e).assignments.Keys
    ensures forall text, offset: nat :: Sends(e, text, offset) ==>
      offset < TWO_63 && offset in After(s, e).assignments
  {
    if e.Put? {
      var n := Shorter(e.digests, e.offsets);
      RequestPlaces(s.assignments, stream, lengths, e.digests[..n], e.offsets[..n]);
      forall text, offset: nat | Sends(e, text, offset) ensures offset < TWO_63 && offset in After(s, e).assignments {
        var i :| 0 <= i < |e.digests| && i < |e.offsets| && e.digests[i] == text && e.offsets[i] == offset;
        assert e.offsets[..n][i] == offset;
      }
    }
  }

  lemma {:induction false} SessionPlaces(events: seq<Event>, stream: seq<string>, lengths: seq<uint64>)
    requires IsStream(stream, lengths)
    requires forall n :: 0 <= n < |events| ==> SendsOnly(events[n], stream, lengths)
    ensures PlacesOnly(Replay(events).assignments, stream, lengths)
    decreases |events|
  {
    if events != [] {
      var n := |events| - 1;
      SessionPlaces(events[..n], stream, lengths);
      EventPlaces(Replay(events[..n]), events[n], stream, lengths);
    }
  }

  /** What was sent stays placed. */
  lemma {:induction false} SentIsPlaced(events: seq<Event>, stream: seq<string>, lengths: seq<uint64>, text: string,
                                        offset: nat)
    requires IsStream(stream, lengths) && IsSent(events, text, offset)
    requires forall n :: 0 <= n < |events| ==> SendsOnly(events[n], stream, lengths)
    ensures offset < TWO_63 && offset in Replay(events).assignments
    decreases |events|
  {
    var last := |events| - 1;
    var n :| 0 <= n < |events| && Sends(events[n], text, offset);
    SessionPlaces(events[..last], stream, lengths);
    EventPlaces(Replay(events[..last]), events[last], stream, lengths);
    if n < last {
      assert Sends(events[..last][n], text, offset);
      SentIsPlaced(events[..last], stream, lengths, text, offset);
    }
  }

  // ----------------------------------------------------------------- the theorem

  ghost function Cuts(lengths: seq<uint64>): (cuts: seq<int64>)
    requires StartOf(lengths, |lengths|) < 0x8000_0000_0000_0000
    ensures |cuts| == |lengths| + 1 && forall j :: 0 <= j <= |lengths| ==> cuts[j] == StartOf(lengths, j)
  {
    forall j | 0 <= j <= |lengths| ensures StartOf(lengths, j) < TWO_63 {
      StartsInRange(lengths, j);
    }
    seq(|lengths| + 1, j requires 0 <= j <= |lengths| => StartOf(lengths, j))
  }

  lemma CutsAreCuts(lengths: seq<uint64>)
    requires StartOf(lengths, |lengths|) < 0x8000_0000_0000_0000 && forall k :: 0 <= k < |lengths| ==> lengths[k] > 0
    ensures AreCuts(Cuts(lengths), |lengths|)
  {
    forall i, j | 0 <= i < j <= |lengths| ensures Cuts(lengths)[i] < Cuts(lengths)[j] {
      StartsAscend(lengths, i, j);
    }
  }

  function Bytes(stream: seq<string>): seq<Digest>
    requires forall j :: 0 <= j < |stream| ==> IsDigest(stream[j])
  {
    seq(|stream|, j requires 0 <= j < |stream| => DigestBytes(stream[j]))
  }

  function DigestBytes(text: string): Digest
    requires IsDigest(text)
  {
    DecodeThenEncode(text);
    Decoded(text)
  }

  lemma BytesAreTexts(stream: seq<string>)
    requires forall j :: 0 <= j < |stream| ==> IsDigest(stream[j]) && IsLowerHex(stream[j])
    ensures HexAll(Bytes(stream)) == stream
  {
    forall j | 0 <= j < |stream| ensures HexOf(Bytes(stream)[j]) == stream[j] {
      DecodeThenEncode(stream[j]);
    }
  }

  lemma ChunkIsThere(events: seq<Event>, stream: seq<string>, lengths: seq<uint64>, j: nat)
    requires IsStream(stream, lengths) && SendsStream(events, stream, lengths) && j < |stream|
    ensures StartOf(lengths, j) < TWO_63 && StartOf(lengths, j) in Replay(events).assignments
    ensures Replay(events).assignments[StartOf(lengths, j)] == Decoded(stream[j])
  {
    var start := StartOf(lengths, j);
    SessionPlaces(events, stream, lengths);
    SentIsPlaced(events, stream, lengths, stream[j], start);
    PlacedIsChunk(Replay(events).assignments, stream, lengths, start, j);
  }

  lemma PlacedIsChunk(a: Placed, stream: seq<string>, lengths: seq<uint64>, k: int64, j: nat)
    requires IsStream(stream, lengths) && PlacesOnly(a, stream, lengths) && j < |stream| && StartOf(lengths, j) == k
    requires k in a
    ensures a[k] == Decoded(stream[j])
  {
    assert IsPlacedAt(a, stream, lengths, k);
    var i :| 0 <= i < |stream| && StartOf(lengths, i) == k && a[k] == Decoded(stream[i]);
    SameStart(lengths, i, j);
  }

  lemma OnlyStartsArePlaced(a: Placed, stream: seq<string>, lengths: seq<uint64>, cuts: seq<int64>, k: int64)
    requires |stream| == |lengths| && PlacesOnly(a, stream, lengths) && k in a && |cuts| == |lengths| + 1
    requires forall j :: 0 <= j <= |lengths| ==> cuts[j] == StartOf(lengths, j)
    ensures k in KeySet(cuts[..|stream|])
  {
    assert IsPlacedAt(a, stream, lengths, k);
    var j :| 0 <= j < |stream| && StartOf(lengths, j) == k && a[k] == Decoded(stream[j]);
    assert cuts[..|stream|][j] == k;
  }

  lemma TilesFrom(a: Placed, digests: seq<Digest>, cuts: seq<int64>)
    requires AreCuts(cuts, |digests|)
    requires forall j :: 0 <= j < |digests| ==> cuts[j] in a && a[cuts[j]] == digests[j]
    requires forall k :: k in a ==> k in KeySet(cuts[..|digests|])
    ensures Tiles(a, digests, cuts)
  {
    forall k | k in KeySet(cuts[..|digests|]) ensures k in a {
      var j :| 0 <= j < |digests| && cuts[..|digests|][j] == k;
    }
  }

  lemma SessionTiles(events: seq<Event>, stream: seq<string>, lengths: seq<uint64>, a: Placed, digests: seq<Digest>,
                     cuts: seq<int64>)
    requires IsStream(stream, lengths) && SendsStream(events, stream, lengths)
    requires AreCuts(cuts, |stream|) && forall j :: 0 <= j <= |lengths| ==> cuts[j] == StartOf(lengths, j)
    requires a == Replay(events).assignments && digests == Bytes(stream)
    ensures Tiles(a, digests, cuts)
  {
    SessionPlaces(events, stream, lengths);
    forall j | 0 <= j < |stream| ensures cuts[j] in a && a[cuts[j]] == digests[j] {
      ChunkIsThere(events, stream, lengths, j);
    }
    forall k | k in a ensures k in KeySet(cuts[..|stream|]) {
      OnlyStartsArePlaced(a, stream, lengths, cuts, k);
    }
    TilesFrom(a, digests, cuts);
  }

  lemma SameStart(lengths: seq<uint64>, i: nat, j: nat)
    requires i < |lengths| && j < |lengths| && StartOf(lengths, i) == StartOf(lengths, j)
    requires forall k :: 0 <= k < |lengths| ==> lengths[k] > 0
    ensures i == j
  {
    if i < j {
      StartsAscend(lengths, i, j);
    } else if j < i {
      StartsAscend(lengths, j, i);
    }
  }

  lemma ChunkIsMeasured(events: seq<Event>, stream: seq<string>, lengths: seq<uint64>, j: nat)
    requires |stream| == |lengths| && SendsStream(events, stream, lengths) && j < |stream|
    ensures stream[j] in SizesOf(Replay(events)) && SizesOf(Replay(events))[stream[j]] == lengths[j]
  {
    SizeIffBacked(events, stream[j]);
    SizeIsAgreed(events, stream[j], lengths[j]);
  }

  lemma SessionMeasures(events: seq<Event>, stream: seq<string>, lengths: seq<uint64>, sizes: SizeMap,
                        digests: seq<Digest>, cuts: seq<int64>)
    requires IsStream(stream, lengths) && SendsStream(events, stream, lengths)
    requires AreCuts(cuts, |stream|) && forall j :: 0 <= j <= |lengths| ==> cuts[j] == StartOf(lengths, j)
    requires sizes == SizesOf(Replay(events)) && |digests| == |stream| && HexAll(digests) == stream
    ensures Measured(digests, sizes, cuts)
  {
    forall j | 0 <= j < |digests|
      ensures HexOf(digests[j]) in sizes && sizes[HexOf(digests[j])] == cuts[j + 1] - cuts[j]
    {
      assert HexOf(digests[j]) == HexAll(digests)[j] == stream[j];
      ChunkIsMeasured(events, stream, lengths, j);
    }
  }

  /**
   * A stream comes back as it was sent. However a session cuts it into
   * requests and whatever their order, the close stores a file that parses to
   * the digests of the stream, in the order of the offsets they were sent for,
   * with the sum of the chunk lengths as its size.
   */
  lemma StreamComesBack(key: string, events: seq<Event>, stream: seq<string>, lengths: seq<uint64>,
                        uuid: Uuid, ctime: uint64, csum: Digest, sha: Sha)
    requires IsStream(stream, lengths) && SendsStream(events, stream, lengths) && HasSuffix(key, DYNAMIC_SUFFIX)
    ensures CloseSucceeds(events)
    ensures var file := ClosedFile(Replay(events).assignments, SizesOf(Replay(events)), uuid, ctime, csum);
      |file| == 4096 + 40 * |stream| &&
      (csum == sha(Payload(file)) ==>
        Parsed(key, file, HexOf(csum), sha) ==
          Ok(ParsedIndex(HexOf(csum), stream, StartOf(lengths, |lengths|))))
  {
    var a, sizes, digests, cuts := Replay(events).assignments, SizesOf(Replay(events)), Bytes(stream), Cuts(lengths);
    CutsAreCuts(lengths);
    BytesAreTexts(stream);
    SessionTiles(events, stream, lengths, a, digests, cuts);
    SessionMeasures(events, stream, lengths, sizes, digests, cuts);
    StreamRoundTrip(key, a, digests, sizes, cuts, uuid, ctime, csum, sha);
  }

  /** A size for every chunk of the stream, its length, and for nothing else. */
  predicate HasLengths(side: SizeMap, stream: seq<string>, lengths: seq<uint64>)
    requires |stream| == |lengths|
  {
    && (forall j :: 0 <= j < |stream| ==> stream[j] in side && side[stream[j]] == lengths[j])
    && (forall text :: text in side ==> text in stream)
  }

  lemma PlacedIsTold(a: Placed, sizes: SizeMap, k: int64, text: string)
    requires SizesKnown(a, sizes) && k in a && HexOf(a[k]) == text
    ensures text in SideFile(a, sizes) && SideFile(a, sizes)[text] == sizes[text]
  {
    assert text in DigestsIn(a);
  }

  lemma ToldIsPlaced(a: Placed, sizes: SizeMap, stream: seq<string>, lengths: seq<uint64>, text: string)
    requires IsStream(stream, lengths) && PlacesOnly(a, stream, lengths) && SizesKnown(a, sizes)
    requires text in SideFile(a, sizes)
    ensures text in stream
  {
    var k :| k in a && HexOf(a[k]) == text;
    assert IsPlacedAt(a, stream, lengths, k);
    var j :| 0 <= j < |stream| && StartOf(lengths, j) == k && a[k] == Decoded(stream[j]);
    DecodeThenEncode(stream[j]);
  }

  /**
   * The side file of such a stream has the length of every chunk, and nothing
   * else: a later session that is sent it is told just those lengths.
   */
  lemma StreamIsRemembered(events: seq<Event>, stream: seq<string>, lengths: seq<uint64>)
    requires IsStream(stream, lengths) && SendsStream(events, stream, lengths) && CloseSucceeds(events)
    ensures HasLengths(SideFile(Replay(events).assignments, SizesOf(Replay(events))), stream, lengths)
  {
    var a, sizes := Replay(events).assignments, SizesOf(Replay(events));
    var side := SideFile(a, sizes);
    SessionPlaces(events, stream, lengths);
    forall j | 0 <= j < |stream| ensures stream[j] in side && side[stream[j]] == lengths[j] {
      ChunkIsThere(events, stream, lengths, j);
      ChunkIsMeasured(events, stream, lengths, j);
      DecodeThenEncode(stream[j]);
      PlacedIsTold(a, sizes, StartOf(lengths, j), stream[j]);
    }
    forall text | text in side ensures text in stream {
      ToldIsPlaced(a, sizes, stream, lengths, text);
    }
  }

  // ------------------------------------------------------------- the last word

  /** The last digest the session assigned to an offset; digests beyond the offsets of a request do not count. */
  function LastPut(events: seq<Event>, offset: uint64): Option<string> {
    if events == [] then None
    else
      var front, last := events[..|events| - 1], events[|events| - 1];
      if !last.Put? then LastPut(front, offset)
      else
        var n := if |last.offsets| < |last.digests| then |last.offsets| else |last.digests|;
        var found := FS.LastIn(last.digests[..n], last.offsets[..n], offset);
        if found.Some? then found else LastPut(front, offset)
  }

  /** An offset as the signed number it is sorted by. */
  function AsSigned(offset: uint64): int64 {
    if offset < 0x8000_0000_0000_0000 then offset else offset - 0x1_0000_0000_0000_0000
  }

  lemma {:induction false} RequestChangesOnly(before: Placed, digests: seq<string>, offsets: seq<uint64>, o: uint64)
    requires |digests| == |offsets|
    ensures var after, last, k := PlaceAll(before, digests, offsets), FS.LastIn(digests, offsets, o), AsSigned(o);
      if last.Some? then k in after && after[k] == Decoded(last.value)
      else (k in after <==> k in before) && (k in before ==> after[k] == before[k])
    decreases |digests|
  {
    if digests != [] {
      var n := |digests| - 1;
      RequestChangesOnly(before, digests[..n], offsets[..n], o);
      assert Signed(offsets[n]) == AsSigned(o) <==> offsets[n] == o;
    }
  }

  /** For every offset the last digest counts that any request of the session had for it. */
  lemma {:induction false} PlacedIsLastPut(events: seq<Event>, o: uint64)
    ensures var a, last := Replay(events).assignments, LastPut(events, o);
      (AsSigned(o) in a <==> last.Some?) && (last.Some? ==> a[AsSigned(o)] == Decoded(last.value))
    decreases |events|
  {
    if events != [] {
      var n := |events| - 1;
      PlacedIsLastPut(events[..n], o);
      if events[n].Put? {
        var m := Shorter(events[n].digests, events[n].offsets);
        RequestChangesOnly(Replay(events[..n]).assignments, events[n].digests[..m], events[n].offsets[..m], o);
      }
    }
  }

  /** The last size an upload of the session recorded for a digest text. */
  function LastUploaded(events: seq<Event>, text: string): Option<uint64> {
    if events == [] then None
    else
      var last := events[|events| - 1];
      if last.Uploaded? && last.digest == text then Some(last.size) else LastUploaded(events[..|events| - 1], text)
  }

  /** The last size a side file of the session had for it. */
  function LastLoaded(events: seq<Event>, text: string): Option<uint64> {
    if events == [] then None
    else
      var last := events[|events| - 1];
      if last.Loaded? && text in last.side then Some(last.side[text]) else LastLoaded(events[..|events| - 1], text)
  }

  /** A close takes the size that was sent to the session, and only without one that of the upload. */
  lemma SentSizeWins(events: seq<Event>, text: string)
    ensures var sizes, sent, recorded := SizesOf(Replay(events)), LastLoaded(events, text), LastUploaded(events, text);
      && (text in sizes <==> sent.Some? || recorded.Some?)
      && (sent.Some? ==> sizes[text] == sent.value)
      && (sent.None? && recorded.Some? ==> sizes[text] == recorded.value)
  {
    SizesAreLast(events, text);
  }

  lemma {:induction false} SizesAreLast(events: seq<Event>, text: string)
    ensures var s := Replay(events);
      && (text in s.known <==> LastLoaded(events, text).Some?)
      && (text in s.known ==> LastLoaded(events, text) == Some(s.known[text]))
      && (text in s.recorded <==> LastUploaded(events, text).Some?)
      && (text in s.recorded ==> LastUploaded(events, text) == Some(s.recorded[text]))
    decreases |events|
  {
    if events != [] {
      SizesAreLast(events[..|events| - 1], text);
    }
  }

  /** The header of a dynamic index, field by field, zeros after the checksum. */
  lemma HeaderIsSpelled(a: Placed, sizes: SizeMap, uuid: Uuid, ctime: uint64, csum: Digest)
    requires SizesKnown(a, sizes)
    ensures var file := ClosedFile(a, sizes, uuid, ctime, csum);
      && |file| >= 4096 && file[..8] == [28, 145, 78, 165, 25, 186, 179, 205] && file[8..24] == uuid
      && Get64(file[24..32]) == ctime && file[32..64] == csum
      && forall i :: 64 <= i < 4096 ==> file[i] == 0
  {
    OrderIsPlaced(a, sizes);
    var head, body := DynamicHeader(uuid, ctime, csum), Body(Order(a.Keys), a, sizes);
    var file := ClosedFile(a, sizes, uuid, ctime, csum);
    ClosedFileParts(a, sizes, uuid, ctime, csum);
    HeaderFields(uuid, ctime, csum);
    FrontSlices(head, body, 8, 24);
    FrontSlices(head, body, 24, 32);
    Word64RoundTrip(ctime);
    assert file == head + body;
    forall i | 64 <= i < 4096 ensures file[i] == 0 {
      assert file[i] == head[i];
    }
  }

  lemma HeaderFields(uuid: Uuid, ctime: uint64, csum: Digest)
    ensures var head := DynamicHeader(uuid, ctime, csum);
      |head| == 4096 && head[8..24] == uuid && head[24..32] == Put64(ctime) &&
      forall i :: 64 <= i < 4096 ==> head[i] == 0
  {
    var front := MAGIC_DYNAMIC + uuid + Put64(ctime);
    var head := DynamicHeader(uuid, ctime, csum);
    assert head == front + (csum + Zeros(4032));
    assert front[8..24] == uuid && front[24..32] == Put64(ctime);
    FrontSlices(front, csum + Zeros(4032), 8, 24);
    FrontSlices(front, csum + Zeros(4032), 24, 32);
    assert |front + csum| == 64;
    assert head == front + csum + Zeros(4032);
  }
}
