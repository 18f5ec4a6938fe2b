/** When closing a dynamic index finds a size for every digest, over whole sessions. */
module DynamicSessions {
  import opened Sums
  import opened ObjectKeys
  import opened IndexBytes
  import opened FixedIndex
  import opened DynamicIndex
  import opened DynamicIndexFacts

  /** The event tells the session a size for this digest text. */
  predicate TellsSize(e: Event, digest: string) {
    match e
    case Uploaded(d, _) => d == digest
    case Loaded(side) => digest in side
    case Put(_, _) => false
  }

  predicate Backed(events: seq<Event>, digest: string) {
    exists i :: 0 <= i < |events| && TellsSize(events[i], digest)
  }

  lemma BackedOneMore(events: seq<Event>, digest: string)
    requires events != []
    ensures Backed(events, digest) <==>
      Backed(events[..|events| - 1], digest) || TellsSize(events[|events| - 1], digest)
  {
    var n := |events| - 1;
    if i :| 0 <= i < n && TellsSize(events[..n][i], digest) {
      assert TellsSize(events[i], digest);
    }
    if i :| 0 <= i < |events| && TellsSize(events[i], digest) {
      assert i < n ==> TellsSize(events[..n][i], digest);
    }
  }

  /** A close finds a size for a text exactly when some event of the session told one. */
  lemma {:induction false} SizeIffBacked(events: seq<Event>, digest: string)
    ensures digest in SizesOf(Replay(events)) <==> Backed(events, digest)
    decreases |events|
  {
    if events != [] {
      SizeIffBacked(events[..|events| - 1], digest);
      BackedOneMore(events, digest);
    }
  }

  /** The event assigns this text. */
  predicate Puts(e: Event, text: string) {
    e.Put? && text in e.digests[..Shorter(e.digests, e.offsets)]
  }

  predicate WasPut(events: seq<Event>, text: string) {
    exists i :: 0 <= i < |events| && Puts(events[i], text)
  }

  lemma {:induction false} PlacedFrom(before: Placed, digests: seq<string>, offsets: seq<uint64>, k: int64)
    returns (text: string)
    requires |digests| == |offsets| && k in PlaceAll(before, digests, offsets)
    ensures (k in before && PlaceAll(before, digests, offsets)[k] == before[k]) ||
      (text in digests && PlaceAll(before, digests, offsets)[k] == Decoded(text))
    decreases |digests|
  {
    text := "";
    if digests != [] {
      var n := |digests| - 1;
      if k == Signed(offsets[n]) {
        text := digests[n];
      } else {
        text := PlacedFrom(before, digests[..n], offsets[..n], k);
      }
    }
  }

  /** What is assigned at the end was assigned by some event. */
  lemma {:induction false} PlacedWasPut(events: seq<Event>, k: int64) returns (text: string)
    requires k in Replay(events).assignments
    ensures WasPut(events, text) && Replay(events).assignments[k] == Decoded(text)
    decreases |events|
  {
    var n := |events| - 1;
    var last, before := events[n], Replay(events[..n]);
    if last.Put? {
      var m := Shorter(last.digests, last.offsets);
      text := PlacedFrom(before.assignments, last.digests[..m], last.offsets[..m], k);
      if text in last.digests[..m] && Replay(events).assignments[k] == Decoded(text) {
        assert Puts(events[n], text);
        return;
      }
    }
    text := PlacedWasPut(events[..n], k);
    var i :| 0 <= i < n && Puts(events[..n][i], text);
    assert Puts(events[i], text);
  }

  ghost predicate CloseSucceeds(events: seq<Event>) {
    SizesKnown(Replay(events).assignments, SizesOf(Replay(events)))
  }

  /** Every digest assigned in the end is backed under its lower-case text. */
  ghost predicate AllBacked(events: seq<Event>) {
    forall k :: k in Replay(events).assignments ==> Backed(events, HexOf(Replay(events).assignments[k]))
  }

  /**
   * Exactly when the close of a session does not panic: every digest that is
   * assigned in the end was told a size under its lower-case text, by an
   * upload or by a side file.
   */
  lemma CloseSucceedsIffBacked(events: seq<Event>)
    ensures CloseSucceeds(events) <==> AllBacked(events)
  {
    var a, sizes := Replay(events).assignments, SizesOf(Replay(events));
    forall k | k in a ensures HexOf(a[k]) in sizes <==> Backed(events, HexOf(a[k])) {
      SizeIffBacked(events, HexOf(a[k]));
    }
  }

  /** The texts of an index the session was sent: what a reader of its file finds, in lower case. */
  ghost predicate WasSent(events: seq<Event>, text: string) {
    exists i, a, sizes :: 0 <= i < |events| && SentWith(events[i], a, sizes, text)
  }

  /** The event loads the side file of an index that holds this digest. */
  ghost predicate SentWith(e: Event, a: Placed, sizes: SizeMap, text: string) {
    SizesKnown(a, sizes) && e == Loaded(SideFile(a, sizes)) && text in Texts(LinesOf(a, sizes))
  }

  /** Every digest of a closed index is in its side file. */
  lemma SideFileCovers(a: Placed, sizes: SizeMap, text: string)
    requires SizesKnown(a, sizes) && text in Texts(LinesOf(a, sizes))
    ensures text in SideFile(a, sizes)
  {
    var lines := LinesOf(a, sizes);
    OrderIsPlaced(a, sizes);
    var i :| 0 <= i < |lines| && Texts(lines)[i] == text;
    EntriesAt(Order(a.Keys), a, sizes, i);
    var k := Order(a.Keys)[i];
    assert k in a && HexOf(a[k]) == text;
  }

  /**
   * A client that assigns only digests it uploaded for this index, or found in
   * an index it was sent, and writes them in lower case, never meets the panic,
   * whatever the order of uploads, loads and assignments.
   */
  lemma HonestSessionNeverPanics(events: seq<Event>)
    requires forall text :: WasPut(events, text) ==>
      IsDigest(text) && IsLowerHex(text) && ((exists size :: Uploaded(text, size) in events) || WasSent(events, text))
    ensures CloseSucceeds(events)
  {
    var a := Replay(events).assignments;
    CloseSucceedsIffBacked(events);
    forall k | k in a ensures Backed(events, HexOf(a[k])) {
      var text := PlacedWasPut(events, k);
      DecodeThenEncode(text);
      if size :| Uploaded(text, size) in events {
        var i :| 0 <= i < |events| && events[i] == Uploaded(text, size);
        assert TellsSize(events[i], text);
      } else {
        var i, b, sizes :| 0 <= i < |events| && SentWith(events[i], b, sizes, text);
        SideFileCovers(b, sizes, text);
        assert TellsSize(events[i], text);
      }
    }
  }

  /**
   * An upload serves an assignment of the same text exactly when it was lower
   * case. Otherwise the close panics, although the chunk is stored.
   */
  lemma UploadServesIffLowerCase(digest: string, size: uint64, offset: uint64)
    requires IsDigest(digest)
    ensures CloseSucceeds([Uploaded(digest, size), Put([digest], [offset])]) <==> IsLowerHex(digest)
  {
    var events := [Uploaded(digest, size), Put([digest], [offset])];
    var a := Replay(events).assignments;
    assert events[..1] == [Uploaded(digest, size)] && events[..1][..0] == [];
    assert [digest][..1] == [digest] && [offset][..1] == [offset];
    assert [digest][..0] == [] && [offset][..0] == [];
    assert PlaceAll(map[], [digest], [offset]) == map[Signed(offset) := Decoded(digest)];
    assert Replay(events[..1]).assignments == map[];
    assert a == map[Signed(offset) := Decoded(digest)];
    DecodeThenEncode(digest);
    CloseSucceedsIffBacked(events);
    if IsLowerHex(digest) {
      assert TellsSize(events[0], digest);
    } else {
      assert Signed(offset) in a && !Backed(events, HexOf(Decoded(digest)));
    }
  }

  // ------------------------------------------------------------- implementation

  /**
   * The requests of a session, as the handlers serve them, and the close that
   * ends it. It stores the two files of what was replayed exactly when every
   * digest assigned in the end was told a size; otherwise it panics on one
   * that was not.
   */
  method ServeSession(events: seq<Event>, csum: seq<byte>, uuid: Uuid, ctime: uint64) returns (reply: DynamicReply)
    ensures (reply.Stored? <==> CloseSucceeds(events)) && (CloseSucceeds(events) <==> AllBacked(events))
    ensures reply.Stored? ==>
      reply.file == ClosedFile(Replay(events).assignments, SizesOf(Replay(events)), uuid, ctime, csum) &&
      reply.csjson == SideFile(Replay(events).assignments, SizesOf(Replay(events)))
    ensures reply.Panicked? ==>
      reply.digest in DigestsIn(Replay(events).assignments) && !Backed(events, reply.digest)
  {
    var writer := new DynamicWriter();
    for n := 0 to |events|
      invariant fresh(writer) && writer.State() == Replay(events[..n])
    {
      assert events[..n + 1][..n] == events[..n];
      match events[n] {
        case Uploaded(digest, size) => writer.RecordSize(digest, size);
        case Loaded(side) => writer.LoadSideFile(side);
        case Put(digests, offsets) => var _, _ := writer.Assign(digests, offsets);
      }
    }
    assert events[..|events|] == events;
    reply := writer.Close(csum, uuid, ctime);
    CloseSucceedsIffBacked(events);
    if reply.Panicked? {
      SizeIffBacked(events, reply.digest);
    }
  }
}
