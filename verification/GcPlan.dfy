/** The collector's mark phase: what is deleted, what is kept, what is missing. */
module GcPlan {
  import opened Wrappers
  import opened Sums
  import opened ObjectKeys
  import opened Snapshots
  import opened Retention

  /** A validated index: its checksum, the digests it references, the size of its archive. */
  datatype ParsedIndex = ParsedIndex(checksum: string, digests: seq<string>, logicalSize: uint64)

  datatype Plan = Plan(
    expiredSnapshots: seq<Snapshot>,
    backupObjects: seq<ObjectInfo>,
    indexedObjects: seq<ObjectInfo>,
    chunkObjects: seq<ObjectInfo>,
    knownChunks: map<string, seq<string>>,
    existingChunks: set<string>,
    chunkSizes: map<string, uint64>,
    archiveSizes: map<string, uint64>,
    missingChunks: map<string, seq<string>>,
    protectedByGrace: nat)

  /**
   * Everything the mark phase reads. `loaded` and `checksums` hold what the
   * index and checksum loaders answered, by object key; a key without an entry
   * is an object whose loader failed.
   */
  datatype Inventory = Inventory(
    backups: seq<ObjectInfo>,
    indexed: seq<ObjectInfo>,
    chunks: seq<ObjectInfo>,
    loaded: map<string, ParsedIndex>,
    checksums: map<string, string>)

  // ------------------------------------------------------------ specification

  predicate Dropped(s: Snapshot, now: int, days: uint64) {
    Expired(s, now, days) && !s.isProtected
  }

  function ExpiredOf(snapshots: seq<Snapshot>, now: int, days: uint64): seq<Snapshot> {
    if snapshots == [] then []
    else
      var front, last := snapshots[..|snapshots| - 1], snapshots[|snapshots| - 1];
      ExpiredOf(front, now, days) + (if Dropped(last, now, days) then [last] else [])
  }

  function ExpiredPrefixes(snapshots: seq<Snapshot>, now: int, days: uint64): set<string> {
    set i | 0 <= i < |snapshots| && Dropped(snapshots[i], now, days) :: snapshots[i].S3Prefix()
  }

  predicate Scheduled(key: string, expired: set<string>) {
    SnapshotPrefixForObject(key).Some? && SnapshotPrefixForObject(key).value in expired
  }

  /** An index the plan must honour. */
  predicate Retained(key: string, expired: set<string>) {
    SnapshotPrefixForObject(key).Some? && SnapshotPrefixForObject(key).value !in expired && IsIndex(key)
  }

  datatype BackupScan = BackupScan(
    scheduled: seq<ObjectInfo>,
    hashes: set<string>,
    known: map<string, seq<string>>,
    archiveSizes: map<string, uint64>)

  function AddReference(known: map<string, seq<string>>, key: string, digest: string): map<string, seq<string>> {
    known[digest := (if digest in known then known[digest] else []) + [key]]
  }

  function AddReferences(known: map<string, seq<string>>, key: string, digests: seq<string>): map<string, seq<string>> {
    if digests == [] then known
    else AddReference(AddReferences(known, key, digests[..|digests| - 1]), key, digests[|digests| - 1])
  }

  function ScanBackup(s: BackupScan, o: ObjectInfo, expired: set<string>, loaded: map<string, ParsedIndex>)
    : Result<BackupScan, GcError>
  {
    if SnapshotPrefixForObject(o.key).None? then Err(BadBackupKey(o.key))
    else if Scheduled(o.key, expired) then Ok(s.(scheduled := s.scheduled + [o]))
    else if !IsIndex(o.key) then Ok(s)
    else if o.key !in loaded then Err(UnreadableIndex(o.key))
    else
      var index := loaded[o.key];
      Ok(s.(hashes := if HasSuffix(o.key, FIXED_SUFFIX) then s.hashes + {index.checksum} else s.hashes,
            archiveSizes := s.archiveSizes[o.key := index.logicalSize],
            known := AddReferences(s.known, o.key, index.digests)))
  }

  function ScanBackups(backups: seq<ObjectInfo>, expired: set<string>, loaded: map<string, ParsedIndex>)
    : Result<BackupScan, GcError>
  {
    if backups == [] then Ok(BackupScan([], {}, map[], map[]))
    else match ScanBackups(backups[..|backups| - 1], expired, loaded)
      case Err(e) => Err(e)
      case Ok(s) => ScanBackup(s, backups[|backups| - 1], expired, loaded)
  }

  function ScanIndexed(indexed: seq<ObjectInfo>, hashes: set<string>, checksums: map<string, string>)
    : Result<seq<ObjectInfo>, GcError>
  {
    if indexed == [] then Ok([])
    else
      var o := indexed[|indexed| - 1];
      match ScanIndexed(indexed[..|indexed| - 1], hashes, checksums)
      case Err(e) => Err(e)
      case Ok(s) =>
        if o.key !in checksums then Err(UnreadableChecksum(o.key))
        else if checksums[o.key] in hashes then Ok(s) else Ok(s + [o])
  }

  predicate WithinGrace(lastModified: int, now: int, grace: int) {
    grace > 0 && lastModified > now - grace
  }

  datatype ChunkScan = ChunkScan(
    existing: set<string>,
    sizes: map<string, uint64>,
    scheduled: seq<ObjectInfo>,
    young: nat)

  function ScanChunk(s: ChunkScan, o: ObjectInfo, known: set<string>, now: int, grace: int)
    : Result<ChunkScan, GcError>
  {
    match ChunkDigestFromKey(o.key)
    case None => Err(BadChunkKey(o.key))
    case Some(d) =>
      if d in known then Ok(s.(existing := s.existing + {d}, sizes := s.sizes[d := o.size]))
      else if WithinGrace(o.lastModified, now, grace) then Ok(s.(young := s.young + 1))
      else Ok(s.(scheduled := s.scheduled + [o]))
  }

  function ScanChunks(chunks: seq<ObjectInfo>, known: set<string>, now: int, grace: int): Result<ChunkScan, GcError> {
    if chunks == [] then Ok(ChunkScan({}, map[], [], 0))
    else match ScanChunks(chunks[..|chunks| - 1], known, now, grace)
      case Err(e) => Err(e)
      case Ok(s) => ScanChunk(s, chunks[|chunks| - 1], known, now, grace)
  }

  function Missing(known: map<string, seq<string>>, existing: set<string>): map<string, seq<string>> {
    map d | d in known && d !in existing :: known[d]
  }

  /** The plan for an inventory, or the first reason not to make one. */
  function PlanFor(snapshots: seq<Snapshot>, inv: Inventory, now: int, days: uint64, grace: int)
    : Result<Plan, GcError>
  {
    if snapshots != [] && RetentionOverflows(days) then Err(RetentionOverflow)
    else match ScanBackups(inv.backups, ExpiredPrefixes(snapshots, now, days), inv.loaded)
      case Err(e) => Err(e)
      case Ok(b) => match ScanIndexed(inv.indexed, b.hashes, inv.checksums)
        case Err(e) => Err(e)
        case Ok(stale) => match ScanChunks(inv.chunks, b.known.Keys, now, grace)
          case Err(e) => Err(e)
          case Ok(c) =>
            Ok(Plan(ExpiredOf(snapshots, now, days), b.scheduled, stale, c.scheduled, b.known, c.existing,
                    c.sizes, b.archiveSizes, Missing(b.known, c.existing), c.young))
  }

  // ----------------------------------------------------------- implementation

  lemma ExpiredStep(front: seq<Snapshot>, last: Snapshot, now: int, days: uint64)
    ensures ExpiredPrefixes(front + [last], now, days) ==
      ExpiredPrefixes(front, now, days) + (if Dropped(last, now, days) then {last.S3Prefix()} else {})
  {
    var all := front + [last];
    assert forall i :: 0 <= i < |front| ==> all[i] == front[i];
    assert all[|front|] == last;
    forall p | p in ExpiredPrefixes(front, now, days) ensures p in ExpiredPrefixes(all, now, days) {
      var i :| 0 <= i < |front| && Dropped(front[i], now, days) && front[i].S3Prefix() == p;
      assert Dropped(all[i], now, days) && all[i].S3Prefix() == p;
    }
  }

  method FindExpired(snapshots: seq<Snapshot>, now: int, days: uint64)
    returns (failed: bool, expired: seq<Snapshot>, prefixes: set<string>)
    ensures failed <==> snapshots != [] && RetentionOverflows(days)
    ensures !failed ==> expired == ExpiredOf(snapshots, now, days) && prefixes == ExpiredPrefixes(snapshots, now, days)
  {
    expired, prefixes := [], {};
    for n := 0 to |snapshots|
      invariant n > 0 ==> !RetentionOverflows(days)
      invariant expired == ExpiredOf(snapshots[..n], now, days)
      invariant prefixes == ExpiredPrefixes(snapshots[..n], now, days)
    {
      ExpiredStep(snapshots[..n], snapshots[n], now, days);
      assert snapshots[..n + 1] == snapshots[..n] + [snapshots[n]];
      match SnapshotExpired(snapshots[n], now, days)
      case Err(_) => return true, expired, prefixes;
      case Ok(due) =>
        if due && !snapshots[n].isProtected {
          expired := expired + [snapshots[n]];
          prefixes := prefixes + {snapshots[n].S3Prefix()};
        }
    }
    assert snapshots[..|snapshots|] == snapshots;
    failed := false;
  }

  lemma {:induction false} BackupsFailEarly(backups: seq<ObjectInfo>, n: nat, expired: set<string>,
                                            loaded: map<string, ParsedIndex>)
    requires n <= |backups| && ScanBackups(backups[..n], expired, loaded).Err?
    ensures ScanBackups(backups, expired, loaded) == ScanBackups(backups[..n], expired, loaded)
    decreases |backups|
  {
    if n < |backups| {
      assert backups[..|backups| - 1][..n] == backups[..n];
      BackupsFailEarly(backups[..|backups| - 1], n, expired, loaded);
    } else {
      assert backups[..n] == backups;
    }
  }

  method AddAllReferences(before: map<string, seq<string>>, key: string, digests: seq<string>)
    returns (known: map<string, seq<string>>)
    ensures known == AddReferences(before, key, digests)
  {
    known := before;
    for k := 0 to |digests|
      invariant known == AddReferences(before, key, digests[..k])
    {
      assert digests[..k + 1][..k] == digests[..k];
      var digest := digests[k];
      known := known[digest := (if digest in known then known[digest] else []) + [key]];
    }
    assert digests[..|digests|] == digests;
  }

  method MarkBackup(s: BackupScan, o: ObjectInfo, expired: set<string>, loaded: map<string, ParsedIndex>)
    returns (r: Result<BackupScan, GcError>)
    ensures r == ScanBackup(s, o, expired, loaded)
  {
    var prefix := SnapshotPrefixForObject(o.key);
    if prefix.None? {
      return Err(BadBackupKey(o.key));
    }
    if prefix.value in expired {
      return Ok(s.(scheduled := s.scheduled + [o]));
    }
    if !HasSuffix(o.key, FIXED_SUFFIX) && !HasSuffix(o.key, DYNAMIC_SUFFIX) {
      return Ok(s);
    }
    if o.key !in loaded {
      return Err(UnreadableIndex(o.key));
    }
    var index := loaded[o.key];
    var hashes := s.hashes;
    if HasSuffix(o.key, FIXED_SUFFIX) {
      hashes := hashes + {index.checksum};
    }
    var known := AddAllReferences(s.known, o.key, index.digests);
    return Ok(BackupScan(s.scheduled, hashes, known, s.archiveSizes[o.key := index.logicalSize]));
  }

  method MarkBackups(backups: seq<ObjectInfo>, expired: set<string>, loaded: map<string, ParsedIndex>)
    returns (r: Result<BackupScan, GcError>)
    ensures r == ScanBackups(backups, expired, loaded)
  {
    var scan := BackupScan([], {}, map[], map[]);
    for n := 0 to |backups|
      invariant ScanBackups(backups[..n], expired, loaded) == Ok(scan)
    {
      assert backups[..n + 1][..n] == backups[..n];
      var next := MarkBackup(scan, backups[n], expired, loaded);
      if next.Err? {
        BackupsFailEarly(backups, n + 1, expired, loaded);
        return next;
      }
      scan := next.value;
    }
    assert backups[..|backups|] == backups;
    return Ok(scan);
  }

  lemma {:induction false} IndexedFailEarly(indexed: seq<ObjectInfo>, n: nat, hashes: set<string>,
                                            checksums: map<string, string>)
    requires n <= |indexed| && ScanIndexed(indexed[..n], hashes, checksums).Err?
    ensures ScanIndexed(indexed, hashes, checksums) == ScanIndexed(indexed[..n], hashes, checksums)
    decreases |indexed|
  {
    if n < |indexed| {
      assert indexed[..|indexed| - 1][..n] == indexed[..n];
      IndexedFailEarly(indexed[..|indexed| - 1], n, hashes, checksums);
    } else {
      assert indexed[..n] == indexed;
    }
  }

  method MarkIndexed(indexed: seq<ObjectInfo>, hashes: set<string>, checksums: map<string, string>)
    returns (r: Result<seq<ObjectInfo>, GcError>)
    ensures r == ScanIndexed(indexed, hashes, checksums)
  {
    var stale: seq<ObjectInfo> := [];
    for n := 0 to |indexed|
      invariant ScanIndexed(indexed[..n], hashes, checksums) == Ok(stale)
    {
      var o := indexed[n];
      assert indexed[..n + 1][..n] == indexed[..n];
      if o.key !in checksums {
        IndexedFailEarly(indexed, n + 1, hashes, checksums);
        return Err(UnreadableChecksum(o.key));
      }
      if checksums[o.key] !in hashes {
        stale := stale + [o];
      }
    }
    assert indexed[..|indexed|] == indexed;
    return Ok(stale);
  }

  lemma {:induction false} ChunksFailEarly(chunks: seq<ObjectInfo>, n: nat, known: set<string>, now: int, grace: int)
    requires n <= |chunks| && ScanChunks(chunks[..n], known, now, grace).Err?
    ensures ScanChunks(chunks, known, now, grace) == ScanChunks(chunks[..n], known, now, grace)
    decreases |chunks|
  {
    if n < |chunks| {
      assert chunks[..|chunks| - 1][..n] == chunks[..n];
      ChunksFailEarly(chunks[..|chunks| - 1], n, known, now, grace);
    } else {
      assert chunks[..n] == chunks;
    }
  }

  method MarkChunks(chunks: seq<ObjectInfo>, known: set<string>, now: int, grace: int)
    returns (r: Result<ChunkScan, GcError>)
    ensures r == ScanChunks(chunks, known, now, grace)
  {
    var scan := ChunkScan({}, map[], [], 0);
    for n := 0 to |chunks|
      invariant ScanChunks(chunks[..n], known, now, grace) == Ok(scan)
    {
      var o := chunks[n];
      assert chunks[..n + 1][..n] == chunks[..n];
      match ChunkDigestFromKey(o.key)
      case None =>
        ChunksFailEarly(chunks, n + 1, known, now, grace);
        return Err(BadChunkKey(o.key));
      case Some(digest) =>
        if digest in known {
          scan := scan.(existing := scan.existing + {digest}, sizes := scan.sizes[digest := o.size]);
        } else if WithinGrace(o.lastModified, now, grace) {
          scan := scan.(young := scan.young + 1);
        } else {
          scan := scan.(scheduled := scan.scheduled + [o]);
        }
    }
    assert chunks[..|chunks|] == chunks;
    return Ok(scan);
  }

  /** Visits the known chunks in an arbitrary order, as a Go map does. */
  method FindMissing(known: map<string, seq<string>>, existing: set<string>) returns (missing: map<string, seq<string>>)
    ensures missing == Missing(known, existing)
  {
    missing := map[];
    var rest := known.Keys;
    while rest != {}
      invariant rest <= known.Keys
      invariant missing == map d | d in known && d !in rest && d !in existing :: known[d]
    {
      var digest :| digest in rest;
      rest := rest - {digest};
      if digest !in existing {
        missing := missing[digest := known[digest]];
      }
    }
  }

  method BuildGCPlan(snapshots: seq<Snapshot>, inv: Inventory, now: int, days: uint64, grace: int)
    returns (r: Result<Plan, GcError>)
    ensures r == PlanFor(snapshots, inv, now, days, grace)
  {
    var overflow, expired, prefixes := FindExpired(snapshots, now, days);
    if overflow {
      return Err(RetentionOverflow);
    }
    var backups := MarkBackups(inv.backups, prefixes, inv.loaded);
    if backups.Err? {
      return Err(backups.error);
    }
    var b := backups.value;
    var stale := MarkIndexed(inv.indexed, b.hashes, inv.checksums);
    if stale.Err? {
      return Err(stale.error);
    }
    var chunks := MarkChunks(inv.chunks, b.known.Keys, now, grace);
    if chunks.Err? {
      return Err(chunks.error);
    }
    var c := chunks.value;
    var missing := FindMissing(b.known, c.existing);
    return Ok(Plan(expired, b.scheduled, stale.value, c.scheduled, b.known, c.existing, c.sizes, b.archiveSizes,
                   missing, c.young));
  }
}
