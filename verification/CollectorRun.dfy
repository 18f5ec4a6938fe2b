/** A whole mark phase, from listings to plan, and what running it again does. */
module CollectorRun {
  import opened Wrappers
  import opened Sums
  import opened ObjectKeys
  import opened Snapshots
  import opened Retention
  import opened GcPlan
  import opened GcPlanFacts

  function AllSnapshots(backups: seq<ObjectInfo>): seq<Snapshot>
    requires AllWellFormed(backups)
  {
    DirsParse(backups);
    Kept(backups, Dirs(backups), true)
  }

  function Current(inv: Inventory, tags: map<string, bool>, now: int, days: uint64): seq<Snapshot>
    requires AllWellFormed(inv.backups)
  {
    RefreshAll(AllSnapshots(inv.backups), Manifests(inv.backups), tags, now, days)
  }

  /** A run gets as far as a plan. */
  predicate Plannable(inv: Inventory, tags: map<string, bool>, now: int, days: uint64, grace: int) {
    && AllWellFormed(inv.backups) && AllSnapshots(inv.backups) != []
    && Refreshable(AllSnapshots(inv.backups), inv.backups, tags, now, days)
    && PlanFor(Current(inv, tags, now, days), inv, now, days, grace).Ok?
  }

  function PlanOf(inv: Inventory, tags: map<string, bool>, now: int, days: uint64, grace: int): Plan
    requires Plannable(inv, tags, now, days, grace)
  {
    PlanFor(Current(inv, tags, now, days), inv, now, days, grace).value
  }

  method Mark(inv: Inventory, tags: map<string, bool>, now: int, days: uint64, grace: int)
    returns (r: Result<Plan, GcError>)
    ensures r.Ok? <==> Plannable(inv, tags, now, days, grace)
    ensures r.Ok? ==> r.value == PlanOf(inv, tags, now, days, grace)
    ensures r == Err(BadListing) <==> !AllWellFormed(inv.backups)
    ensures r == Err(NoSnapshots) <==> AllWellFormed(inv.backups) && AllSnapshots(inv.backups) == []
    ensures AllWellFormed(inv.backups) && AllSnapshots(inv.backups) != [] ==>
      if Refreshable(AllSnapshots(inv.backups), inv.backups, tags, now, days)
      then r == PlanFor(Current(inv, tags, now, days), inv, now, days, grace)
      else r.Err? && (IsStray(r.error, inv.backups) || (r.error == RetentionOverflow && days * 86400 >= TWO_64) ||
                      IsUnread(r.error, AllSnapshots(inv.backups), inv.backups, tags, now, days))
  {
    var grouped := SnapshotsFromObjects(inv.backups, true);
    if grouped.None? {
      return Err(BadListing);
    }
    var found := grouped.value;
    if |found| == 0 {
      return Err(NoSnapshots);
    }
    var snapshots := new Snapshot[|found|](i requires 0 <= i < |found| => found[i]);
    assert snapshots[..] == found;
    var failed := RefreshExpiredSnapshotProtection(snapshots, inv.backups, tags, now, days);
    if failed.Some? {
      return Err(failed.value);
    }
    r := BuildGCPlan(snapshots[..], inv, now, days, grace);
    if r.Err? {
      PlanErrors(snapshots[..], inv, now, days, grace);
    }
  }

  lemma DirIsPrefix(key: string)
    requires PathOf(key).Some?
    ensures SnapshotPrefixForObject(key) == Some(BACKUPS + PathOf(key).value.dir)
  {
  }

  lemma CurrentAt(inv: Inventory, tags: map<string, bool>, now: int, days: uint64, i: nat)
    requires AllWellFormed(inv.backups) && i < |Dirs(inv.backups)|
    ensures IdentityOf(Dirs(inv.backups)[i]).Some?
    ensures |Current(inv, tags, now, days)| == |Dirs(inv.backups)|
    ensures Current(inv, tags, now, days)[i] ==
      Refreshed(SnapshotOf(inv.backups, Dirs(inv.backups)[i]), Manifests(inv.backups), tags, now, days)
  {
    DirsParse(inv.backups);
    OneSnapshotPerDir(inv.backups, Dirs(inv.backups));
  }

  // --------------------------------------------------------------- idempotence

  /** The listing after every object with one of these keys is gone. */
  function Without(objects: seq<ObjectInfo>, keys: set<string>): seq<ObjectInfo> {
    if objects == [] then []
    else
      var last := objects[|objects| - 1];
      Without(objects[..|objects| - 1], keys) + (if last.key in keys then [] else [last])
  }

  function KeysOf(objects: seq<ObjectInfo>): set<string> {
    set o | o in objects :: o.key
  }

  /** What is left after a sweep in which every delete took effect. */
  function Swept(inv: Inventory, plan: Plan): Inventory {
    inv.(backups := Without(inv.backups, KeysOf(plan.backupObjects)),
         indexed := Without(inv.indexed, KeysOf(plan.indexedObjects)),
         chunks := Without(inv.chunks, KeysOf(plan.chunkObjects)))
  }

  predicate DistinctKeys(objects: seq<ObjectInfo>) {
    forall o, o' :: o in objects && o' in objects && o.key == o'.key ==> o == o'
  }

  lemma {:induction false} WithoutExactly(objects: seq<ObjectInfo>, keys: set<string>, o: ObjectInfo)
    ensures o in Without(objects, keys) <==> o in objects && o.key !in keys
  {
    if objects != [] {
      WithoutExactly(objects[..|objects| - 1], keys, o);
      assert objects == objects[..|objects| - 1] + [objects[|objects| - 1]];
    }
  }

  /** What is not scheduled is scanned the same when fewer snapshots have expired. */
  lemma ScanBySchedule(s: BackupScan, o: ObjectInfo, expired: set<string>, fewer: set<string>,
                       loaded: map<string, ParsedIndex>)
    requires ScanBackup(s, o, expired, loaded).Ok? && fewer <= expired
    ensures var r := ScanBackup(s, o, expired, loaded).value;
      if Scheduled(o.key, expired) then r == s.(scheduled := s.scheduled + [o])
      else ScanBackup(s.(scheduled := []), o, fewer, loaded) == Ok(r.(scheduled := []))
  {
  }

  lemma {:induction false} ScanWithout(backups: seq<ObjectInfo>, expired: set<string>, fewer: set<string>,
                                       loaded: map<string, ParsedIndex>, keys: set<string>)
    requires ScanBackups(backups, expired, loaded).Ok? && fewer <= expired
    requires forall o :: o in backups ==> (o.key in keys <==> Scheduled(o.key, expired))
    ensures ScanBackups(Without(backups, keys), fewer, loaded) ==
      Ok(ScanBackups(backups, expired, loaded).value.(scheduled := []))
    decreases |backups|
  {
    if backups != [] {
      var front, last := backups[..|backups| - 1], backups[|backups| - 1];
      assert backups == front + [last];
      ScanWithout(front, expired, fewer, loaded, keys);
      ScanBySchedule(ScanBackups(front, expired, loaded).value, last, expired, fewer, loaded);
      var rest := Without(backups, keys);
      if last.key in keys {
        assert rest == Without(front, keys);
      } else {
        assert rest[..|rest| - 1] == Without(front, keys) && rest[|rest| - 1] == last;
      }
    }
  }

  lemma {:induction false} IndexedWithout(indexed: seq<ObjectInfo>, hashes: set<string>,
                                          checksums: map<string, string>, keys: set<string>)
    requires ScanIndexed(indexed, hashes, checksums).Ok?
    requires forall o :: o in indexed ==> o.key in checksums && (o.key in keys <==> checksums[o.key] !in hashes)
    ensures ScanIndexed(Without(indexed, keys), hashes, checksums) == Ok([])
    decreases |indexed|
  {
    if indexed != [] {
      var front, last := indexed[..|indexed| - 1], indexed[|indexed| - 1];
      assert indexed == front + [last];
      IndexedWithout(front, hashes, checksums, keys);
      var rest := Without(indexed, keys);
      if last.key in keys {
        assert rest == Without(front, keys);
      } else {
        assert rest[..|rest| - 1] == Without(front, keys) && rest[|rest| - 1] == last;
      }
    }
  }

  lemma ScanByFate(s: ChunkScan, o: ObjectInfo, known: set<string>, now: int, grace: int)
    requires ScanChunk(s, o, known, now, grace).Ok?
    ensures var r := ScanChunk(s, o, known, now, grace).value;
      if FateOf(o, known, now, grace) == Some(Orphan) then r == s.(scheduled := s.scheduled + [o])
      else ScanChunk(s.(scheduled := []), o, known, now, grace) == Ok(r.(scheduled := []))
  {
  }

  lemma {:induction false} ChunksWithout(chunks: seq<ObjectInfo>, known: set<string>, now: int, grace: int,
                                         keys: set<string>)
    requires ScanChunks(chunks, known, now, grace).Ok?
    requires forall o :: o in chunks ==> (o.key in keys <==> FateOf(o, known, now, grace) == Some(Orphan))
    ensures ScanChunks(Without(chunks, keys), known, now, grace) ==
      Ok(ScanChunks(chunks, known, now, grace).value.(scheduled := []))
    decreases |chunks|
  {
    if chunks != [] {
      var front, last := chunks[..|chunks| - 1], chunks[|chunks| - 1];
      assert chunks == front + [last];
      ChunksWithout(front, known, now, grace, keys);
      ScanByFate(ScanChunks(front, known, now, grace).value, last, known, now, grace);
      var rest := Without(chunks, keys);
      assert last in chunks;
      if last.key in keys {
        assert rest == Without(front, keys);
      } else {
        assert rest[..|rest| - 1] == Without(front, keys) && rest[|rest| - 1] == last;
      }
    }
  }

  lemma {:induction false} TagsWithout(backups: seq<ObjectInfo>, keys: set<string>, dir: string)
    requires forall o :: o in backups && InDir(o, dir) ==> o.key !in keys
    ensures TaggedProtected(Without(backups, keys), dir) == TaggedProtected(backups, dir)
    decreases |backups|
  {
    if backups != [] {
      var front, last := backups[..|backups| - 1], backups[|backups| - 1];
      assert backups == front + [last];
      TagsWithout(front, keys, dir);
      var rest := Without(backups, keys);
      if last.key in keys {
        assert rest == Without(front, keys);
      } else {
        assert rest[..|rest| - 1] == Without(front, keys) && rest[|rest| - 1] == last;
      }
    }
  }

  predicate AllKept(backups: seq<ObjectInfo>, keys: set<string>, prefix: string) {
    forall o :: o in backups && SnapshotPrefixForObject(o.key) == Some(prefix) ==> o.key !in keys
  }

  lemma ManifestIffKept(backups: seq<ObjectInfo>, keys: set<string>, prefix: string)
    ensures prefix in Manifests(Without(backups, keys)) ==> prefix in Manifests(backups)
    ensures prefix in Manifests(backups) && AllKept(backups, keys, prefix) ==>
      prefix in Manifests(Without(backups, keys))
  {
    var rest := Without(backups, keys);
    if prefix in Manifests(rest) {
      var i :| 0 <= i < |rest| && IsManifest(rest[i]) && SnapshotPrefixForObject(rest[i].key) == Some(prefix);
      WithoutExactly(backups, keys, rest[i]);
      var j :| 0 <= j < |backups| && backups[j] == rest[i];
      assert IsManifest(backups[j]);
    }
    if prefix in Manifests(backups) && AllKept(backups, keys, prefix) {
      var i :| 0 <= i < |backups| && IsManifest(backups[i]) && SnapshotPrefixForObject(backups[i].key) == Some(prefix);
      WithoutExactly(backups, keys, backups[i]);
      var j :| 0 <= j < |rest| && rest[j] == backups[i];
      assert IsManifest(rest[j]);
    }
  }

  /** The listing of a swept bucket is still well formed, and its snapshots are some of the old ones. */
  lemma SweptDirs(backups: seq<ObjectInfo>, keys: set<string>)
    requires AllWellFormed(backups)
    ensures AllWellFormed(Without(backups, keys))
    ensures forall d :: d in Dirs(Without(backups, keys)) ==>
      d in Dirs(backups) && exists o :: o in backups && InDir(o, d) && o.key !in keys
  {
    var rest := Without(backups, keys);
    DirsAreKnown(rest);
    DirsAreKnown(backups);
    forall i | 0 <= i < |rest| ensures WellFormed(rest[i].key) && rest[i] in backups && rest[i].key !in keys {
      WithoutExactly(backups, keys, rest[i]);
      assert rest[i] in rest;
    }
    forall d | d in Dirs(rest)
      ensures d in Dirs(backups) && exists o :: o in backups && InDir(o, d) && o.key !in keys
    {
      var i :| 0 <= i < |rest| && InDir(rest[i], d);
      var j :| 0 <= j < |backups| && backups[j] == rest[i];
      assert InDir(backups[j], d);
    }
  }

  lemma PlannableDays(inv: Inventory, tags: map<string, bool>, now: int, days: uint64)
    requires AllWellFormed(inv.backups) && AllSnapshots(inv.backups) != []
    requires Refreshable(AllSnapshots(inv.backups), inv.backups, tags, now, days)
    ensures !RetentionOverflows(days)
  {
    ExpiryIsExact(AllSnapshots(inv.backups)[0], now, days);
  }

  lemma RestIsWellFormed(backups: seq<ObjectInfo>, keys: set<string>)
    requires AllWellFormed(backups) && ManifestsParse(backups)
    ensures AllWellFormed(Without(backups, keys)) && ManifestsParse(Without(backups, keys))
  {
    var rest := Without(backups, keys);
    SweptDirs(backups, keys);
    forall i | 0 <= i < |rest| ensures ManifestParses(rest[i]) {
      WithoutExactly(backups, keys, rest[i]);
      var j :| 0 <= j < |backups| && backups[j] == rest[i];
    }
  }

  /** A listed snapshot needs a tag only if it needed it before. */
  lemma NeedsNoNewTag(backups: seq<ObjectInfo>, keys: set<string>, tags: map<string, bool>, now: int, days: uint64,
                      i: nat)
    requires AllWellFormed(backups) && AllWellFormed(Without(backups, keys)) && i < |Dirs(Without(backups, keys))|
    requires Refreshable(AllSnapshots(backups), backups, tags, now, days)
    ensures var rest := Without(backups, keys);
      && i < |AllSnapshots(rest)|
      && (NeedsTag(AllSnapshots(rest)[i], Manifests(rest), now, days) ==>
            AllSnapshots(rest)[i].S3Prefix() + MANIFEST in tags)
  {
    var rest := Without(backups, keys);
    DirsParse(rest);
    DirsParse(backups);
    OneSnapshotPerDir(rest, Dirs(rest));
    OneSnapshotPerDir(backups, Dirs(backups));
    SweptDirs(backups, keys);
    var d := Dirs(rest)[i];
    assert d in Dirs(rest);
    var j :| 0 <= j < |Dirs(backups)| && Dirs(backups)[j] == d;
    assert AllSnapshots(rest)[i] == SnapshotOf(rest, d) && AllSnapshots(backups)[j] == SnapshotOf(backups, d);
    SameNeed(backups, keys, now, days, d);
  }

  lemma SameNeed(backups: seq<ObjectInfo>, keys: set<string>, now: int, days: uint64, d: string)
    requires IdentityOf(d).Some?
    ensures var s, was := SnapshotOf(Without(backups, keys), d), SnapshotOf(backups, d);
      && s.S3Prefix() == was.S3Prefix()
      && (NeedsTag(s, Manifests(Without(backups, keys)), now, days) ==> NeedsTag(was, Manifests(backups), now, days))
  {
    ManifestIffKept(backups, keys, SnapshotOf(backups, d).S3Prefix());
  }

  /** Whatever is taken off the listing, what is left can be refreshed with the same tags. */
  lemma RestIsRefreshable(backups: seq<ObjectInfo>, keys: set<string>, tags: map<string, bool>, now: int,
                             days: uint64)
    requires AllWellFormed(backups) && !RetentionOverflows(days)
    requires Refreshable(AllSnapshots(backups), backups, tags, now, days)
    ensures AllWellFormed(Without(backups, keys))
    ensures Refreshable(AllSnapshots(Without(backups, keys)), Without(backups, keys), tags, now, days)
  {
    var rest := Without(backups, keys);
    RestIsWellFormed(backups, keys);
    DirsParse(rest);
    OneSnapshotPerDir(rest, Dirs(rest));
    forall i | 0 <= i < |AllSnapshots(rest)|
      ensures NeedsTag(AllSnapshots(rest)[i], Manifests(rest), now, days) ==>
        AllSnapshots(rest)[i].S3Prefix() + MANIFEST in tags
    {
      NeedsNoNewTag(backups, keys, tags, now, days, i);
    }
  }

  /** A snapshot of the second run was there in the first, with the same name and age. */
  lemma SeenBefore(inv: Inventory, tags: map<string, bool>, now: int, days: uint64, keys: set<string>, i: nat)
    returns (j: nat)
    requires AllWellFormed(inv.backups) && AllWellFormed(Without(inv.backups, keys))
    requires i < |Dirs(Without(inv.backups, keys))|
    ensures j < |Dirs(inv.backups)| && Dirs(inv.backups)[j] == Dirs(Without(inv.backups, keys))[i]
    ensures exists o :: o in inv.backups && InDir(o, Dirs(inv.backups)[j]) && o.key !in keys
  {
    SweptDirs(inv.backups, keys);
    var dir := Dirs(Without(inv.backups, keys))[i];
    assert dir in Dirs(Without(inv.backups, keys));
    j :| 0 <= j < |Dirs(inv.backups)| && Dirs(inv.backups)[j] == dir;
  }

  /** While one object of a directory stays, all of them do, and the listed tag reads the same. */
  lemma TagReadsTheSame(backups: seq<ObjectInfo>, keys: set<string>, expired: set<string>, dir: string)
    requires forall o :: o in backups ==> (o.key in keys <==> Scheduled(o.key, expired))
    requires exists o :: o in backups && InDir(o, dir) && o.key !in keys
    ensures TaggedProtected(Without(backups, keys), dir) == TaggedProtected(backups, dir)
  {
    var o :| o in backups && InDir(o, dir) && o.key !in keys;
    DirIsPrefix(o.key);
    forall o' | o' in backups && InDir(o', dir) ensures o'.key !in keys {
      DirIsPrefix(o'.key);
    }
    TagsWithout(backups, keys, dir);
  }

  lemma UnscheduledIsKept(backups: seq<ObjectInfo>, keys: set<string>, expired: set<string>, prefix: string)
    requires forall o :: o in backups ==> (o.key in keys <==> Scheduled(o.key, expired))
    requires prefix !in expired
    ensures AllKept(backups, keys, prefix)
  {
  }

  /** Whether a snapshot is dropped depends on its age, its listed tag and whether it has a manifest. */
  lemma DropsAlike(s: Snapshot, s': Snapshot, m: set<string>, m': set<string>, tags: map<string, bool>, now: int,
                   days: uint64)
    requires s.backupTime == s'.backupTime && s.isProtected == s'.isProtected && s.S3Prefix() == s'.S3Prefix()
    requires s.S3Prefix() in m <==> s.S3Prefix() in m'
    ensures Dropped(Refreshed(s, m, tags, now, days), now, days) <==>
      Dropped(Refreshed(s', m', tags, now, days), now, days)
  {
  }

  /** A snapshot the second run drops is one the first run dropped. */
  lemma NothingNewExpires(backups: seq<ObjectInfo>, tags: map<string, bool>, now: int, days: uint64,
                          keys: set<string>, expired: set<string>, dir: string)
    requires IdentityOf(dir).Some?
    requires forall o :: o in backups ==> (o.key in keys <==> Scheduled(o.key, expired))
    requires exists o :: o in backups && InDir(o, dir) && o.key !in keys
    requires var s := SnapshotOf(backups, dir);
      && (NeedsTag(s, Manifests(backups), now, days) ==> s.S3Prefix() + MANIFEST in tags)
      && (Dropped(Refreshed(s, Manifests(backups), tags, now, days), now, days) ==> s.S3Prefix() in expired)
    requires var rest := Without(backups, keys);
      Dropped(Refreshed(SnapshotOf(rest, dir), Manifests(rest), tags, now, days), now, days)
    ensures SnapshotOf(backups, dir).S3Prefix() in expired
  {
    var s, left := SnapshotOf(backups, dir), SnapshotOf(Without(backups, keys), dir);
    var prefix := s.S3Prefix();
    assert left.S3Prefix() == prefix;
    ManifestIffKept(backups, keys, prefix);
    TagReadsTheSame(backups, keys, expired, dir);
    if prefix !in expired {
      UnscheduledIsKept(backups, keys, expired, prefix);
      DropsAlike(s, left, Manifests(backups), Manifests(Without(backups, keys)), tags, now, days);
    }
  }

  lemma FewerExpire(inv: Inventory, tags: map<string, bool>, now: int, days: uint64, keys: set<string>, i: nat)
    requires AllWellFormed(inv.backups) && AllWellFormed(Without(inv.backups, keys))
    requires Refreshable(AllSnapshots(inv.backups), inv.backups, tags, now, days)
    requires forall o :: o in inv.backups ==>
      (o.key in keys <==> Scheduled(o.key, ExpiredPrefixes(Current(inv, tags, now, days), now, days)))
    requires var after := inv.(backups := Without(inv.backups, keys));
      i < |Current(after, tags, now, days)| && Dropped(Current(after, tags, now, days)[i], now, days)
    ensures var after := inv.(backups := Without(inv.backups, keys));
      Current(after, tags, now, days)[i].S3Prefix() in ExpiredPrefixes(Current(inv, tags, now, days), now, days)
  {
    var rest := Without(inv.backups, keys);
    var current := Current(inv, tags, now, days);
    DirsParse(rest);
    OneSnapshotPerDir(rest, Dirs(rest));
    CurrentAt(inv.(backups := rest), tags, now, days, i);
    var j := SeenBefore(inv, tags, now, days, keys, i);
    CurrentAt(inv, tags, now, days, j);
    DirsParse(inv.backups);
    OneSnapshotPerDir(inv.backups, Dirs(inv.backups));
    assert AllSnapshots(inv.backups)[j] == SnapshotOf(inv.backups, Dirs(rest)[i]);
    assert Dropped(current[j], now, days) ==> current[j].S3Prefix() in ExpiredPrefixes(current, now, days);
    NothingNewExpires(inv.backups, tags, now, days, keys, ExpiredPrefixes(current, now, days), Dirs(rest)[i]);
  }

  lemma ScheduledKeys(snapshots: seq<Snapshot>, inv: Inventory, now: int, days: uint64, grace: int)
    requires PlanFor(snapshots, inv, now, days, grace).Ok? && DistinctKeys(inv.chunks)
    ensures var plan := PlanFor(snapshots, inv, now, days, grace).value;
      && (forall o :: o in inv.backups ==>
            (o.key in KeysOf(plan.backupObjects) <==> Scheduled(o.key, ExpiredPrefixes(snapshots, now, days))))
      && (forall o :: o in inv.chunks ==>
            (o.key in KeysOf(plan.chunkObjects) <==> FateOf(o, plan.knownChunks.Keys, now, grace) == Some(Orphan)))
  {
    PlanIsAPartition(snapshots, inv, now, days, grace);
  }

  lemma StaleKeys(snapshots: seq<Snapshot>, inv: Inventory, now: int, days: uint64, grace: int, hashes: set<string>)
    requires ScanIndexed(inv.indexed, hashes, inv.checksums).Ok?
    ensures forall o :: o in inv.indexed ==> o.key in inv.checksums
    ensures forall o :: o in inv.indexed ==>
      (o.key in KeysOf(ScanIndexed(inv.indexed, hashes, inv.checksums).value) <==> inv.checksums[o.key] !in hashes)
  {
    forall o
      ensures o in inv.indexed ==> o.key in inv.checksums
      ensures o in ScanIndexed(inv.indexed, hashes, inv.checksums).value <==>
        o in inv.indexed && inv.checksums[o.key] !in hashes
    {
      StaleExactly(inv.indexed, hashes, inv.checksums, o);
    }
  }

  /**
   * The collector is idempotent. Run again at the same instant on the bucket a
   * complete sweep leaves, it either finds no snapshot and refuses, or reads no
   * tag it had not read, plans to delete nothing and knows the same chunks.
   */
  lemma SecondRunDeletesNothing(inv: Inventory, tags: map<string, bool>, now: int, days: uint64, grace: int)
    requires Plannable(inv, tags, now, days, grace) && DistinctKeys(inv.chunks)
    ensures var plan := PlanOf(inv, tags, now, days, grace);
      var after := Swept(inv, plan);
      AllWellFormed(after.backups) && (AllSnapshots(after.backups) != [] ==>
        Plannable(after, tags, now, days, grace) &&
        var again := PlanOf(after, tags, now, days, grace);
        again == plan.(expiredSnapshots := again.expiredSnapshots, backupObjects := [], indexedObjects := [],
                       chunkObjects := []))
  {
    var plan := PlanOf(inv, tags, now, days, grace);
    var after := Swept(inv, plan);
    var before := Current(inv, tags, now, days);
    var expired := ExpiredPrefixes(before, now, days);
    var b := ScanBackups(inv.backups, expired, inv.loaded).value;
    ScheduledKeys(before, inv, now, days, grace);
    StaleKeys(before, inv, now, days, grace, b.hashes);
    SweptDirs(inv.backups, KeysOf(plan.backupObjects));
    if AllSnapshots(after.backups) != [] {
      var current := Current(after, tags, now, days);
      var fewer := ExpiredPrefixes(current, now, days);
      forall p | p in fewer ensures p in expired {
        var i :| 0 <= i < |current| && Dropped(current[i], now, days) && current[i].S3Prefix() == p;
        assert Current(inv.(backups := after.backups), tags, now, days) == current;
        FewerExpire(inv, tags, now, days, KeysOf(plan.backupObjects), i);
      }
      ScanWithout(inv.backups, expired, fewer, inv.loaded, KeysOf(plan.backupObjects));
      IndexedWithout(inv.indexed, b.hashes, inv.checksums, KeysOf(plan.indexedObjects));
      ChunksWithout(inv.chunks, b.known.Keys, now, grace, KeysOf(plan.chunkObjects));
      PlannableDays(inv, tags, now, days);
      RestIsRefreshable(inv.backups, KeysOf(plan.backupObjects), tags, now, days);
      assert before != [] by {
        DirsParse(inv.backups);
        OneSnapshotPerDir(inv.backups, Dirs(inv.backups));
      }
    }
  }
}
