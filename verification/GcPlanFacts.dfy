/** What a plan guarantees, for every inventory it can be built from. */
module GcPlanFacts {
  import opened Wrappers
  import opened Sums
  import opened ObjectKeys
  import opened Snapshots
  import opened Retention
  import opened GcPlan

  ghost predicate KeyListed(objects: seq<ObjectInfo>, key: string) {
    exists i :: 0 <= i < |objects| && objects[i].key == key
  }

  lemma KeyListedStep(front: seq<ObjectInfo>, last: ObjectInfo, key: string)
    ensures KeyListed(front + [last], key) <==> KeyListed(front, key) || last.key == key
  {
    var all := front + [last];
    if i :| 0 <= i < |front| && front[i].key == key {
      assert all[i].key == key;
    }
    if last.key == key {
      assert all[|front|].key == key;
    }
  }

  /** `key` is a retained index and references `d`. */
  ghost predicate References(inv: Inventory, expired: set<string>, key: string, d: string) {
    KeyListed(inv.backups, key) && Retained(key, expired) && key in inv.loaded && d in inv.loaded[key].digests
  }

  predicate Refers(known: map<string, seq<string>>, key: string, d: string) {
    d in known && key in known[d]
  }

  lemma {:induction false} ReferencesAdded(known: map<string, seq<string>>, key: string, digests: seq<string>,
                                           key': string, d: string)
    ensures Refers(AddReferences(known, key, digests), key', d) <==>
      Refers(known, key', d) || (key' == key && d in digests)
    ensures d in AddReferences(known, key, digests) <==> d in known || d in digests
  {
    if digests != [] {
      var n := |digests| - 1;
      ReferencesAdded(known, key, digests[..n], key', d);
      assert digests == digests[..n] + [digests[n]];
    }
  }

  /** Exactly the references of the retained indexes are known. */
  lemma {:induction false} KnownExactly(inv: Inventory, backups: seq<ObjectInfo>, expired: set<string>, key: string,
                                        d: string)
    requires ScanBackups(backups, expired, inv.loaded).Ok?
    ensures Refers(ScanBackups(backups, expired, inv.loaded).value.known, key, d) <==>
      References(inv.(backups := backups), expired, key, d)
    decreases |backups|
  {
    if backups != [] {
      var front, last := backups[..|backups| - 1], backups[|backups| - 1];
      assert backups == front + [last];
      KnownExactly(inv, front, expired, key, d);
      KeyListedStep(front, last, key);
      if Retained(last.key, expired) {
        ReferencesAdded(ScanBackups(front, expired, inv.loaded).value.known, last.key,
                        inv.loaded[last.key].digests, key, d);
      }
    }
  }

  /** A known chunk is known through some retained index. */
  lemma {:induction false} KnownHasReference(inv: Inventory, backups: seq<ObjectInfo>, expired: set<string>, d: string)
    requires ScanBackups(backups, expired, inv.loaded).Ok?
    requires d in ScanBackups(backups, expired, inv.loaded).value.known
    ensures exists key :: References(inv.(backups := backups), expired, key, d)
    decreases |backups|
  {
    var front, last := backups[..|backups| - 1], backups[|backups| - 1];
    var before := ScanBackups(front, expired, inv.loaded).value.known;
    assert backups == front + [last];
    if d in before {
      KnownHasReference(inv, front, expired, d);
      var key :| References(inv.(backups := front), expired, key, d);
      KeyListedStep(front, last, key);
      assert References(inv.(backups := backups), expired, key, d);
    } else {
      ReferencesAdded(before, last.key, inv.loaded[last.key].digests, last.key, d);
      KeyListedStep(front, last, last.key);
      assert References(inv.(backups := backups), expired, last.key, d);
    }
  }

  ghost predicate HashOf(inv: Inventory, expired: set<string>, key: string, h: string) {
    && KeyListed(inv.backups, key) && Retained(key, expired) && HasSuffix(key, FIXED_SUFFIX)
    && key in inv.loaded && inv.loaded[key].checksum == h
  }

  /** What one listed object contributes. */
  ghost predicate Carries(inv: Inventory, expired: set<string>, key: string, h: string) {
    Retained(key, expired) && HasSuffix(key, FIXED_SUFFIX) && key in inv.loaded && inv.loaded[key].checksum == h
  }

  lemma HashOneMore(inv: Inventory, front: seq<ObjectInfo>, last: ObjectInfo, expired: set<string>, h: string)
    ensures (exists key :: HashOf(inv.(backups := front + [last]), expired, key, h)) <==>
      (exists key :: HashOf(inv.(backups := front), expired, key, h)) || Carries(inv, expired, last.key, h)
  {
    forall key
      ensures HashOf(inv.(backups := front + [last]), expired, key, h) <==>
        HashOf(inv.(backups := front), expired, key, h) || (key == last.key && Carries(inv, expired, key, h))
    {
      KeyListedStep(front, last, key);
    }
    assert Carries(inv, expired, last.key, h) ==> HashOf(inv.(backups := front + [last]), expired, last.key, h);
  }

  /** A checksum counts as live only through a retained fixed index. */
  lemma {:induction false} HashesAreLive(inv: Inventory, backups: seq<ObjectInfo>, expired: set<string>, h: string)
    requires ScanBackups(backups, expired, inv.loaded).Ok?
    ensures h in ScanBackups(backups, expired, inv.loaded).value.hashes <==>
      exists key :: HashOf(inv.(backups := backups), expired, key, h)
    decreases |backups|
  {
    if backups != [] {
      var front, last := backups[..|backups| - 1], backups[|backups| - 1];
      assert backups == front + [last];
      HashesAreLive(inv, front, expired, h);
      HashOneMore(inv, front, last, expired, h);
    }
  }

  /** Objects are scheduled snapshot by snapshot: all of one, or none of it. */
  lemma {:induction false} ScheduledExactly(backups: seq<ObjectInfo>, expired: set<string>,
                                            loaded: map<string, ParsedIndex>, o: ObjectInfo)
    requires ScanBackups(backups, expired, loaded).Ok?
    ensures o in ScanBackups(backups, expired, loaded).value.scheduled <==> o in backups && Scheduled(o.key, expired)
    ensures o in backups ==> SnapshotPrefixForObject(o.key).Some?
    ensures o in backups && Retained(o.key, expired) ==> o.key in loaded
    decreases |backups|
  {
    if backups != [] {
      var front, last := backups[..|backups| - 1], backups[|backups| - 1];
      assert backups == front + [last];
      ScheduledExactly(front, expired, loaded, o);
    }
  }

  /** Nothing but a key without a prefix, or an unreadable retained index, stops the scan. */
  lemma {:induction false} ScanIsOk(backups: seq<ObjectInfo>, expired: set<string>, loaded: map<string, ParsedIndex>)
    requires forall o :: o in backups ==>
      SnapshotPrefixForObject(o.key).Some? && (Retained(o.key, expired) ==> o.key in loaded)
    ensures ScanBackups(backups, expired, loaded).Ok?
    decreases |backups|
  {
    if backups != [] {
      assert backups == backups[..|backups| - 1] + [backups[|backups| - 1]];
      ScanIsOk(backups[..|backups| - 1], expired, loaded);
    }
  }

  lemma {:induction false} StaleExactly(indexed: seq<ObjectInfo>, hashes: set<string>, checksums: map<string, string>,
                                        o: ObjectInfo)
    requires ScanIndexed(indexed, hashes, checksums).Ok?
    ensures o in indexed ==> o.key in checksums
    ensures o in ScanIndexed(indexed, hashes, checksums).value <==> o in indexed && checksums[o.key] !in hashes
    decreases |indexed|
  {
    if indexed != [] {
      var front, last := indexed[..|indexed| - 1], indexed[|indexed| - 1];
      assert indexed == front + [last];
      StaleExactly(front, hashes, checksums, o);
    }
  }

  // ------------------------------------------------------------ the partition

  datatype Fate = Referenced | Young | Orphan

  /** The one thing that happens to a listed chunk. */
  function FateOf(o: ObjectInfo, known: set<string>, now: int, grace: int): Option<Fate> {
    match ChunkDigestFromKey(o.key)
    case None => None
    case Some(d) => Some(
      if d in known then Referenced
      else if grace > 0 && o.lastModified + grace > now then Young
      else Orphan)
  }

  function WithFate(chunks: seq<ObjectInfo>, fate: Fate, known: set<string>, now: int, grace: int): seq<ObjectInfo> {
    if chunks == [] then []
    else
      var last := chunks[|chunks| - 1];
      WithFate(chunks[..|chunks| - 1], fate, known, now, grace) +
      (if FateOf(last, known, now, grace) == Some(fate) then [last] else [])
  }

  /** `o` carries digest `d` and that digest is referenced. */
  predicate Backs(o: ObjectInfo, d: string) {
    ChunkDigestFromKey(o.key) == Some(d)
  }

  lemma {:induction false} ChunksPartition(chunks: seq<ObjectInfo>, known: set<string>, now: int, grace: int)
    requires ScanChunks(chunks, known, now, grace).Ok?
    ensures var s := ScanChunks(chunks, known, now, grace).value;
      && s.scheduled == WithFate(chunks, Orphan, known, now, grace)
      && s.young == |WithFate(chunks, Young, known, now, grace)|
      && |chunks| == |WithFate(chunks, Referenced, known, now, grace)| + s.young + |s.scheduled|
    ensures forall o :: o in chunks ==> FateOf(o, known, now, grace).Some?
    decreases |chunks|
  {
    if chunks != [] {
      var front, last := chunks[..|chunks| - 1], chunks[|chunks| - 1];
      assert chunks == front + [last];
      ChunksPartition(front, known, now, grace);
    }
  }

  lemma {:induction false} OrphansExactly(chunks: seq<ObjectInfo>, fate: Fate, known: set<string>, now: int,
                                          grace: int, o: ObjectInfo)
    ensures o in WithFate(chunks, fate, known, now, grace) <==>
      o in chunks && FateOf(o, known, now, grace) == Some(fate)
    decreases |chunks|
  {
    if chunks != [] {
      assert chunks == chunks[..|chunks| - 1] + [chunks[|chunks| - 1]];
      OrphansExactly(chunks[..|chunks| - 1], fate, known, now, grace, o);
    }
  }

  lemma {:induction false} ExistingExactly(chunks: seq<ObjectInfo>, known: set<string>, now: int, grace: int, d: string)
    requires ScanChunks(chunks, known, now, grace).Ok?
    ensures var s := ScanChunks(chunks, known, now, grace).value;
      && (d in s.existing <==> d in known && exists i :: 0 <= i < |chunks| && Backs(chunks[i], d))
      && (d in s.sizes <==> d in s.existing)
      && (d in s.sizes ==> exists i :: 0 <= i < |chunks| && Backs(chunks[i], d) && chunks[i].size == s.sizes[d])
    decreases |chunks|
  {
    if chunks != [] {
      var n := |chunks| - 1;
      var front, last := chunks[..n], chunks[n];
      ExistingExactly(front, known, now, grace, d);
      var s, before := ScanChunks(chunks, known, now, grace).value, ScanChunks(front, known, now, grace).value;
      if d in known && Backs(last, d) {
        assert Backs(chunks[n], d);
      } else {
        assert d in s.existing <==> d in before.existing;
        if i :| 0 <= i < n && Backs(front[i], d) && (d in before.sizes ==> front[i].size == before.sizes[d]) {
          assert Backs(chunks[i], d);
        }
        if i :| 0 <= i < |chunks| && Backs(chunks[i], d) {
          assert i < n && d in known ==> Backs(front[i], d);
        }
      }
    }
  }

  /**
   * The plan is an exact partition. Every listed chunk is referenced, young or
   * scheduled, and nothing else is scheduled; a snapshot is scheduled whole or
   * not at all; what is reported missing is exactly what is known and not listed.
   */
  lemma PlanIsAPartition(snapshots: seq<Snapshot>, inv: Inventory, now: int, days: uint64, grace: int)
    requires PlanFor(snapshots, inv, now, days, grace).Ok?
    ensures var plan := PlanFor(snapshots, inv, now, days, grace).value;
      var known, expired := plan.knownChunks.Keys, ExpiredPrefixes(snapshots, now, days);
      && (forall o :: o in plan.chunkObjects <==> o in inv.chunks && FateOf(o, known, now, grace) == Some(Orphan))
      && |inv.chunks| ==
        |WithFate(inv.chunks, Referenced, known, now, grace)| + plan.protectedByGrace + |plan.chunkObjects|
      && (forall o :: o in plan.backupObjects <==> o in inv.backups && Scheduled(o.key, expired))
      && (forall d :: d in plan.missingChunks <==>
            d in known && !exists i :: 0 <= i < |inv.chunks| && Backs(inv.chunks[i], d))
      && (forall key, d :: Refers(plan.knownChunks, key, d) <==> References(inv, expired, key, d))
  {
    var expired := ExpiredPrefixes(snapshots, now, days);
    var b := ScanBackups(inv.backups, expired, inv.loaded).value;
    var known := b.known.Keys;
    assert inv.(backups := inv.backups) == inv;
    ChunksPartition(inv.chunks, known, now, grace);
    forall o
      ensures o in WithFate(inv.chunks, Orphan, known, now, grace) <==>
        o in inv.chunks && FateOf(o, known, now, grace) == Some(Orphan)
    {
      OrphansExactly(inv.chunks, Orphan, known, now, grace, o);
    }
    forall o ensures o in b.scheduled <==> o in inv.backups && Scheduled(o.key, expired) {
      ScheduledExactly(inv.backups, expired, inv.loaded, o);
    }
    forall d
      ensures d in ScanChunks(inv.chunks, known, now, grace).value.existing <==>
        d in known && exists i :: 0 <= i < |inv.chunks| && Backs(inv.chunks[i], d)
    {
      ExistingExactly(inv.chunks, known, now, grace, d);
    }
    forall key, d ensures Refers(b.known, key, d) <==> References(inv, expired, key, d) {
      KnownExactly(inv, inv.backups, expired, key, d);
    }
  }

  /** With nothing missing, every known chunk is listed under its own name. */
  lemma KnownIsListed(snapshots: seq<Snapshot>, inv: Inventory, now: int, days: uint64, grace: int, d: string)
    returns (o: ObjectInfo)
    requires PlanFor(snapshots, inv, now, days, grace).Ok?
    requires PlanFor(snapshots, inv, now, days, grace).value.missingChunks == map[]
    requires d in PlanFor(snapshots, inv, now, days, grace).value.knownChunks
    ensures o in inv.chunks && ChunkObjectName(d) == Some(o.key)
  {
    PlanIsAPartition(snapshots, inv, now, days, grace);
    assert d !in PlanFor(snapshots, inv, now, days, grace).value.missingChunks;
    var j :| 0 <= j < |inv.chunks| && Backs(inv.chunks[j], d);
    ChunkKeysRoundTrip(d, inv.chunks[j].key);
    o := inv.chunks[j];
  }

  /**
   * What makes the sweep safe. A chunk a retained index references is never
   * scheduled; a copied index that stays shares its checksum with a retained
   * fixed index; young and unlisted chunks are never scheduled.
   */
  lemma PlanSparesReferences(snapshots: seq<Snapshot>, inv: Inventory, now: int, days: uint64, grace: int)
    requires PlanFor(snapshots, inv, now, days, grace).Ok?
    ensures var plan := PlanFor(snapshots, inv, now, days, grace).value;
      var expired := ExpiredPrefixes(snapshots, now, days);
      && (forall o :: o in inv.backups && IsIndex(o.key) && o !in plan.backupObjects ==>
            Retained(o.key, expired) && o.key in inv.loaded &&
            forall d :: d in inv.loaded[o.key].digests ==> d in plan.knownChunks)
      && (forall o :: o in plan.chunkObjects ==>
            ChunkDigestFromKey(o.key).Some? && ChunkDigestFromKey(o.key).value !in plan.knownChunks &&
            o in inv.chunks && (grace <= 0 || o.lastModified + grace <= now))
      && (forall o :: o in inv.indexed && o !in plan.indexedObjects ==>
            o.key in inv.checksums && exists key :: HashOf(inv, expired, key, inv.checksums[o.key]))
  {
    var plan := PlanFor(snapshots, inv, now, days, grace).value;
    var expired := ExpiredPrefixes(snapshots, now, days);
    var b := ScanBackups(inv.backups, expired, inv.loaded).value;
    assert inv.(backups := inv.backups) == inv;
    PlanIsAPartition(snapshots, inv, now, days, grace);
    forall o | o in inv.backups && IsIndex(o.key) && o !in plan.backupObjects
      ensures Retained(o.key, expired) && o.key in inv.loaded
      ensures forall d :: d in inv.loaded[o.key].digests ==> d in plan.knownChunks
    {
      ScheduledExactly(inv.backups, expired, inv.loaded, o);
      forall d | d in inv.loaded[o.key].digests ensures d in plan.knownChunks {
        assert KeyListed(inv.backups, o.key);
        assert References(inv, expired, o.key, d);
        assert Refers(plan.knownChunks, o.key, d);
      }
    }
    forall o | o in inv.indexed && o !in plan.indexedObjects
      ensures o.key in inv.checksums && exists key :: HashOf(inv, expired, key, inv.checksums[o.key])
    {
      StaleExactly(inv.indexed, b.hashes, inv.checksums, o);
      HashesAreLive(inv, inv.backups, expired, inv.checksums[o.key]);
    }
  }

  /**
   * Which chunks go. A listed chunk is scheduled exactly when no index that is
   * kept references its digest and its age has reached the grace period; what
   * is protected by grace are the unreferenced chunks that are younger.
   */
  lemma ScheduledIffUnusedAndOld(snapshots: seq<Snapshot>, inv: Inventory, now: int, days: uint64, grace: int,
                                 o: ObjectInfo, d: string)
    requires PlanFor(snapshots, inv, now, days, grace).Ok? && o in inv.chunks && ChunkObjectName(d) == Some(o.key)
    ensures var plan, expired := PlanFor(snapshots, inv, now, days, grace).value, ExpiredPrefixes(snapshots, now, days);
      && (o in plan.chunkObjects <==>
            !(exists key :: References(inv, expired, key, d)) && (grace <= 0 || o.lastModified + grace <= now))
      && (o in WithFate(inv.chunks, Young, plan.knownChunks.Keys, now, grace) <==>
            !(exists key :: References(inv, expired, key, d)) && grace > 0 && o.lastModified + grace > now)
      && plan.protectedByGrace == |WithFate(inv.chunks, Young, plan.knownChunks.Keys, now, grace)|
  {
    var plan, expired := PlanFor(snapshots, inv, now, days, grace).value, ExpiredPrefixes(snapshots, now, days);
    ChunkKeysRoundTrip(d, o.key);
    PlanIsAPartition(snapshots, inv, now, days, grace);
    ChunksPartition(inv.chunks, plan.knownChunks.Keys, now, grace);
    OrphansExactly(inv.chunks, Young, plan.knownChunks.Keys, now, grace, o);
    assert inv.(backups := inv.backups) == inv;
    if d in plan.knownChunks {
      KnownHasReference(inv, inv.backups, expired, d);
    }
    if key :| References(inv, expired, key, d) {
      assert Refers(plan.knownChunks, key, d);
    }
  }

  // -------------------------------------------------------- lists, and failures

  /** What is left of a listing when some objects are taken out, in its order. */
  ghost function Filtered(objects: seq<ObjectInfo>, keep: ObjectInfo -> bool): seq<ObjectInfo> {
    if objects == [] then []
    else
      var front, last := objects[..|objects| - 1], objects[|objects| - 1];
      Filtered(front, keep) + (if keep(last) then [last] else [])
  }

  ghost function IsScheduled(expired: set<string>): ObjectInfo -> bool {
    (o: ObjectInfo) => Scheduled(o.key, expired)
  }

  ghost function IsStale(hashes: set<string>, checksums: map<string, string>): ObjectInfo -> bool {
    (o: ObjectInfo) => o.key in checksums && checksums[o.key] !in hashes
  }

  /** Objects are scheduled in the order they are listed in, each as often as it is listed. */
  lemma {:induction false} ScheduledInOrder(backups: seq<ObjectInfo>, expired: set<string>,
                                            loaded: map<string, ParsedIndex>)
    requires ScanBackups(backups, expired, loaded).Ok?
    ensures ScanBackups(backups, expired, loaded).value.scheduled == Filtered(backups, IsScheduled(expired))
    decreases |backups|
  {
    if backups != [] {
      ScheduledInOrder(backups[..|backups| - 1], expired, loaded);
    }
  }

  lemma {:induction false} StaleInOrder(indexed: seq<ObjectInfo>, hashes: set<string>, checksums: map<string, string>)
    requires ScanIndexed(indexed, hashes, checksums).Ok?
    ensures ScanIndexed(indexed, hashes, checksums).value == Filtered(indexed, IsStale(hashes, checksums))
    decreases |indexed|
  {
    if indexed != [] {
      StaleInOrder(indexed[..|indexed| - 1], hashes, checksums);
    }
  }

  function Copies(key: string, n: nat): seq<string> {
    seq(n, _ => key)
  }

  function TimesIn(d: string, digests: seq<string>): nat {
    if digests == [] then 0
    else TimesIn(d, digests[..|digests| - 1]) + (if digests[|digests| - 1] == d then 1 else 0)
  }

  /** An index is recorded for a digest once for each time it names it, after the indexes before it. */
  lemma {:induction false} ReferencesAreRepeated(known: map<string, seq<string>>, key: string, digests: seq<string>,
                                                 d: string)
    ensures var after := AddReferences(known, key, digests);
      && (d in after <==> d in known || TimesIn(d, digests) > 0)
      && (d in after ==> after[d] == (if d in known then known[d] else []) + Copies(key, TimesIn(d, digests)))
    decreases |digests|
  {
    if digests != [] {
      var n := |digests| - 1;
      ReferencesAreRepeated(known, key, digests[..n], d);
      if digests[n] == d {
        assert Copies(key, TimesIn(d, digests)) == Copies(key, TimesIn(d, digests[..n])) + [key];
      }
    }
  }

  /** Past its retention, over unbounded integers, and unprotected. */
  predicate IsOut(s: Snapshot, now: int, days: uint64) {
    !s.isProtected && 86400 * days < 0x1_0000_0000_0000_0000 && s.backupTime + 86400 * days < now / 1_000_000_000
  }

  lemma OutIsDropped(s: Snapshot, now: int, days: uint64)
    ensures IsOut(s, now, days) <==> Dropped(s, now, days)
  {
    ExpiryIsExact(s, now, days);
  }

  /** The snapshots that are out, in the order they came in. */
  function AllOut(snapshots: seq<Snapshot>, now: int, days: uint64): seq<Snapshot> {
    if snapshots == [] then []
    else
      var front, last := snapshots[..|snapshots| - 1], snapshots[|snapshots| - 1];
      AllOut(front, now, days) + (if IsOut(last, now, days) then [last] else [])
  }

  /** The plan lists as expired exactly the snapshots that are out. */
  lemma {:induction false} ExpiredExactly(snapshots: seq<Snapshot>, now: int, days: uint64)
    ensures ExpiredOf(snapshots, now, days) == AllOut(snapshots, now, days)
    decreases |snapshots|
  {
    if snapshots != [] {
      ExpiredExactly(snapshots[..|snapshots| - 1], now, days);
      OutIsDropped(snapshots[|snapshots| - 1], now, days);
    }
  }

  /** The four things a plan needs of what was listed and loaded. */
  ghost predicate Readable(inv: Inventory, expired: set<string>) {
    && (forall o :: o in inv.backups ==>
          SnapshotPrefixForObject(o.key).Some? && (Retained(o.key, expired) ==> o.key in inv.loaded))
    && (forall o :: o in inv.indexed ==> o.key in inv.checksums)
    && (forall o :: o in inv.chunks ==> IsChunkKey(o.key))
  }

  /**
   * There is a plan exactly when every listed key can be attributed, every
   * index that is kept and every copy could be read, and the retention does
   * not overflow: one bad key or one unreadable index stops the collector.
   */
  lemma PlannedIffReadable(snapshots: seq<Snapshot>, inv: Inventory, now: int, days: uint64, grace: int)
    ensures PlanFor(snapshots, inv, now, days, grace).Ok? <==>
      (snapshots == [] || days * 86400 < 0x1_0000_0000_0000_0000) &&
      Readable(inv, ExpiredPrefixes(snapshots, now, days))
  {
    var expired := ExpiredPrefixes(snapshots, now, days);
    ScannedIffReadable(inv.backups, expired, inv.loaded);
    var b := ScanBackups(inv.backups, expired, inv.loaded);
    if b.Ok? {
      IndexedIffReadable(inv.indexed, b.value.hashes, inv.checksums);
      ChunksIffReadable(inv.chunks, b.value.known.Keys, now, grace);
    }
  }

  lemma {:induction false} ScannedIffReadable(backups: seq<ObjectInfo>, expired: set<string>,
                                              loaded: map<string, ParsedIndex>)
    ensures ScanBackups(backups, expired, loaded).Ok? <==>
      forall o :: o in backups ==>
        SnapshotPrefixForObject(o.key).Some? && (Retained(o.key, expired) ==> o.key in loaded)
    decreases |backups|
  {
    if backups != [] {
      assert backups == backups[..|backups| - 1] + [backups[|backups| - 1]];
      ScannedIffReadable(backups[..|backups| - 1], expired, loaded);
    }
  }

  lemma {:induction false} IndexedIffReadable(indexed: seq<ObjectInfo>, hashes: set<string>,
                                              checksums: map<string, string>)
    ensures ScanIndexed(indexed, hashes, checksums).Ok? <==> forall o :: o in indexed ==> o.key in checksums
    decreases |indexed|
  {
    if indexed != [] {
      assert indexed == indexed[..|indexed| - 1] + [indexed[|indexed| - 1]];
      IndexedIffReadable(indexed[..|indexed| - 1], hashes, checksums);
    }
  }

  ghost predicate IsChunkKey(key: string) {
    exists d :: ChunkObjectName(d) == Some(key)
  }

  lemma ChunkKeyReads(key: string)
    ensures ChunkDigestFromKey(key).Some? <==> IsChunkKey(key)
  {
    if ChunkDigestFromKey(key).Some? {
      ChunkKeysRoundTrip(ChunkDigestFromKey(key).value, key);
    }
    if d :| ChunkObjectName(d) == Some(key) {
      ChunkKeysRoundTrip(d, key);
    }
  }

  lemma {:induction false} ChunksIffReadable(chunks: seq<ObjectInfo>, known: set<string>, now: int, grace: int)
    ensures ScanChunks(chunks, known, now, grace).Ok? <==> forall o :: o in chunks ==> IsChunkKey(o.key)
    decreases |chunks|
  {
    if chunks != [] {
      assert chunks == chunks[..|chunks| - 1] + [chunks[|chunks| - 1]];
      ChunksIffReadable(chunks[..|chunks| - 1], known, now, grace);
      ChunkKeyReads(chunks[|chunks| - 1].key);
    }
  }

  // ------------------------------------------------------------ the first error

  /** What is wrong with one object under backups/, if anything is. */
  function BackupFault(o: ObjectInfo, expired: set<string>, loaded: map<string, ParsedIndex>): Option<GcError> {
    match SnapshotPrefixForObject(o.key)
    case None => Some(BadBackupKey(o.key))
    case Some(prefix) =>
      if prefix !in expired && IsIndex(o.key) && o.key !in loaded then Some(UnreadableIndex(o.key)) else None
  }

  function CopyFault(o: ObjectInfo, checksums: map<string, string>): Option<GcError> {
    if o.key in checksums then None else Some(UnreadableChecksum(o.key))
  }

  function ChunkFault(o: ObjectInfo): Option<GcError> {
    if ChunkDigestFromKey(o.key).None? then Some(BadChunkKey(o.key)) else None
  }

  /** The first of the faults. */
  function First(faults: seq<Option<GcError>>): Option<GcError> {
    if faults == [] then None
    else if faults[0].Some? then faults[0]
    else First(faults[1..])
  }

  lemma {:induction false} FirstOneMore(faults: seq<Option<GcError>>, last: Option<GcError>)
    ensures First(faults + [last]) == if First(faults).Some? then First(faults) else last
    decreases |faults|
  {
    if faults == [] {
      assert faults + [last] == [last];
    } else {
      FirstOneMore(faults[1..], last);
      assert (faults + [last])[1..] == faults[1..] + [last];
    }
  }

  function BackupFaults(backups: seq<ObjectInfo>, expired: set<string>, loaded: map<string, ParsedIndex>)
    : seq<Option<GcError>>
  {
    seq(|backups|, i requires 0 <= i < |backups| => BackupFault(backups[i], expired, loaded))
  }

  function CopyFaults(indexed: seq<ObjectInfo>, checksums: map<string, string>): seq<Option<GcError>> {
    seq(|indexed|, i requires 0 <= i < |indexed| => CopyFault(indexed[i], checksums))
  }

  function ChunkFaults(chunks: seq<ObjectInfo>): seq<Option<GcError>> {
    seq(|chunks|, i requires 0 <= i < |chunks| => ChunkFault(chunks[i]))
  }

  lemma {:induction false} ScanFailsFirst(backups: seq<ObjectInfo>, expired: set<string>,
                                          loaded: map<string, ParsedIndex>)
    ensures match First(BackupFaults(backups, expired, loaded))
      case Some(e) => ScanBackups(backups, expired, loaded) == Err(e)
      case None => ScanBackups(backups, expired, loaded).Ok?
    decreases |backups|
  {
    if backups != [] {
      var n := |backups| - 1;
      ScanFailsFirst(backups[..n], expired, loaded);
      FirstOneMore(BackupFaults(backups[..n], expired, loaded), BackupFault(backups[n], expired, loaded));
      assert BackupFaults(backups, expired, loaded) ==
        BackupFaults(backups[..n], expired, loaded) + [BackupFault(backups[n], expired, loaded)];
    }
  }

  lemma {:induction false} IndexedFailsFirst(indexed: seq<ObjectInfo>, hashes: set<string>,
                                             checksums: map<string, string>)
    ensures match First(CopyFaults(indexed, checksums))
      case Some(e) => ScanIndexed(indexed, hashes, checksums) == Err(e)
      case None => ScanIndexed(indexed, hashes, checksums).Ok?
    decreases |indexed|
  {
    if indexed != [] {
      var n := |indexed| - 1;
      IndexedFailsFirst(indexed[..n], hashes, checksums);
      FirstOneMore(CopyFaults(indexed[..n], checksums), CopyFault(indexed[n], checksums));
      assert CopyFaults(indexed, checksums) == CopyFaults(indexed[..n], checksums) + [CopyFault(indexed[n], checksums)];
    }
  }

  lemma {:induction false} ChunksFailFirst(chunks: seq<ObjectInfo>, known: set<string>, now: int, grace: int)
    ensures match First(ChunkFaults(chunks))
      case Some(e) => ScanChunks(chunks, known, now, grace) == Err(e)
      case None => ScanChunks(chunks, known, now, grace).Ok?
    decreases |chunks|
  {
    if chunks != [] {
      var n := |chunks| - 1;
      ChunksFailFirst(chunks[..n], known, now, grace);
      FirstOneMore(ChunkFaults(chunks[..n]), ChunkFault(chunks[n]));
      assert ChunkFaults(chunks) == ChunkFaults(chunks[..n]) + [ChunkFault(chunks[n])];
    }
  }

  /**
   * Which error a plan fails with: an overflow before anything else, then the
   * first fault of the listing under backups/, then of the copies, then of the
   * chunks, each in the order it is listed.
   */
  lemma FailsWithTheFirst(snapshots: seq<Snapshot>, inv: Inventory, now: int, days: uint64, grace: int)
    ensures var plan, expired := PlanFor(snapshots, inv, now, days, grace), ExpiredPrefixes(snapshots, now, days);
      var faults := First([First(BackupFaults(inv.backups, expired, inv.loaded)),
                           First(CopyFaults(inv.indexed, inv.checksums)), First(ChunkFaults(inv.chunks))]);
      if snapshots != [] && days * 86400 >= 0x1_0000_0000_0000_0000 then plan == Err(RetentionOverflow)
      else match faults
        case Some(e) => plan == Err(e)
        case None => plan.Ok?
  {
    var expired := ExpiredPrefixes(snapshots, now, days);
    ScanFailsFirst(inv.backups, expired, inv.loaded);
    FirstOfThree(First(BackupFaults(inv.backups, expired, inv.loaded)), First(CopyFaults(inv.indexed, inv.checksums)),
                 First(ChunkFaults(inv.chunks)));
    var b := ScanBackups(inv.backups, expired, inv.loaded);
    if b.Ok? {
      IndexedFailsFirst(inv.indexed, b.value.hashes, inv.checksums);
      ChunksFailFirst(inv.chunks, b.value.known.Keys, now, grace);
    }
  }

  /** A plan never fails for want of snapshots, or of a tag: those are the reasons of the steps before it. */
  predicate IsPlanError(e: GcError) {
    !e.BadListing? && !e.NoSnapshots? && !e.UnreadableTag?
  }

  lemma PlanErrors(snapshots: seq<Snapshot>, inv: Inventory, now: int, days: uint64, grace: int)
    requires PlanFor(snapshots, inv, now, days, grace).Err?
    ensures IsPlanError(PlanFor(snapshots, inv, now, days, grace).error)
  {
    var expired := ExpiredPrefixes(snapshots, now, days);
    FailsWithTheFirst(snapshots, inv, now, days, grace);
    var b, c, k := BackupFaults(inv.backups, expired, inv.loaded), CopyFaults(inv.indexed, inv.checksums),
                   ChunkFaults(inv.chunks);
    FirstOfThree(First(b), First(c), First(k));
    FirstIsOne(b);
    FirstIsOne(c);
    FirstIsOne(k);
  }

  lemma {:induction false} FirstIsOne(faults: seq<Option<GcError>>)
    requires forall i :: 0 <= i < |faults| && faults[i].Some? ==> IsPlanError(faults[i].value)
    ensures First(faults).Some? ==> IsPlanError(First(faults).value)
    decreases |faults|
  {
    if faults != [] && faults[0].None? {
      FirstIsOne(faults[1..]);
    }
  }

  lemma FirstOfThree(a: Option<GcError>, b: Option<GcError>, c: Option<GcError>)
    ensures First([a, b, c]) == if a.Some? then a else if b.Some? then b else c
  {
    assert [a, b, c][1..] == [b, c] && [b, c][1..] == [c] && [c][1..] == [];
    assert First([c]) == c;
    assert First([b, c]) == if b.Some? then b else c;
  }
}
