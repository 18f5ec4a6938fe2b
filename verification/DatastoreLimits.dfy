/** Runs that lose a chunk when the lock is not shared, or handlers are not waited for. */
module DatastoreLimits {
  import opened Wrappers
  import opened Sums
  import opened ObjectKeys
  import opened Snapshots
  import opened Retention
  import opened GcPlan
  import opened Datastore
  import opened DatastoreRuns

  // ------------------------------------------------------ the failing bucket

  const DIR := "g|1|vm"
  const BLOB := "index.json.blob"
  const BLOB_KEY := BACKUPS + (DIR + ['/'] + BLOB)
  const INDEX_KEY := BACKUPS + DIR + "/root.didx"
  const DAY_NANOS: int := 86400 * SECOND
  const SNAPSHOT := Snapshot("g", 1, "vm", [SnapshotFile(BLOB, 9)], false, false)

  function Digest(): (d: string)
    ensures IsDigest(d)
  {
    seq(64, _ => '0')
  }

  function OrphanKey(): string {
    ChunkObjectName(Digest()).value
  }

  /** One retained snapshot without an index, and one orphaned chunk two days old. */
  function Start(): State {
    State(Bucket(map[BLOB_KEY := Blob], map[], map[OrphanKey() := Chunk(5, -2 * DAY_NANOS)]),
          Free, map[], map[], Idle, 0)
  }

  function StartInventory(): Inventory {
    Inventory([ObjectInfo(BLOB_KEY, 9, 0, false)], [], [ObjectInfo(OrphanKey(), 5, -2 * DAY_NANOS, false)],
              map[], map[])
  }

  lemma BlobIsSkipped(loaded: map<string, ParsedIndex>)
    ensures ScanBackups(StartInventory().backups, {}, loaded) == Ok(BackupScan([], {}, map[], map[]))
  {
    FirstIndex(DIR, '/', BLOB);
    assert BLOB_KEY[|BACKUPS|..] == DIR + ['/'] + BLOB;
    assert SnapshotPrefixForObject(BLOB_KEY).Some?;
    assert BLOB_KEY[|BLOB_KEY| - 1] == 'b';
    assert !IsIndex(BLOB_KEY);
    assert StartInventory().backups[..0] == [];
  }

  lemma OrphanIsScheduled()
    ensures ScanChunks(StartInventory().chunks, {}, 0, DAY_NANOS) ==
      Ok(ChunkScan({}, map[], StartInventory().chunks, 0))
  {
    var chunks := StartInventory().chunks;
    NameThenDigest(Digest());
    assert chunks[..0] == [];
    assert [] + [chunks[0]] == chunks;
  }

  lemma SnapshotIsRetained(snapshots: seq<Snapshot>)
    requires snapshots == [SNAPSHOT]
    ensures ExpiredPrefixes(snapshots, 0, 1) == {} && ExpiredOf(snapshots, 0, 1) == []
  {
    assert !Dropped(SNAPSHOT, 0, 1);
    assert snapshots[..0] == [];
  }

  function StartPlan(): Plan {
    Plan([], [], [], StartInventory().chunks, map[], {}, map[], map[], map[], 0)
  }

  lemma PlanAssembles(snapshots: seq<Snapshot>, inv: Inventory, now: int, days: uint64, grace: int)
    requires !RetentionOverflows(days) && inv.indexed == []
    requires ExpiredPrefixes(snapshots, now, days) == {} && ExpiredOf(snapshots, now, days) == []
    requires ScanBackups(inv.backups, {}, inv.loaded) == Ok(BackupScan([], {}, map[], map[]))
    requires ScanChunks(inv.chunks, {}, now, grace) == Ok(ChunkScan({}, map[], inv.chunks, 0))
    ensures PlanFor(snapshots, inv, now, days, grace) ==
      Ok(Plan([], [], [], inv.chunks, map[], {}, map[], map[], map[], 0))
  {
    var known: map<string, seq<string>> := map[];
    assert known.Keys == {};
    assert Missing(known, {}) == map[];
  }

  /** A collector run with a day of grace schedules the orphan, and nothing else. */
  lemma StartIsPlanned(snapshots: seq<Snapshot>)
    requires snapshots == [SNAPSHOT]
    ensures PlanFor(snapshots, StartInventory(), 0, 1, DAY_NANOS) == Ok(StartPlan())
  {
    BlobIsSkipped(StartInventory().loaded);
    OrphanIsScheduled();
    SnapshotIsRetained(snapshots);
    PlanAssembles(snapshots, StartInventory(), 0, 1, DAY_NANOS);
  }

  lemma StartIsFine(env: Env)
    ensures Quiet(env, Start()) && Complete(Start().bucket)
  {
  }

  lemma StartLists(env: Env)
    ensures var inv, b := StartInventory(), Start().bucket;
      && ListsBackups(inv.backups, b.backups, b.backups) && ListsIndexed(inv.indexed, b.indexed)
      && ListsChunks(inv.chunks, b.chunks) && FaithfulLoads(env, inv, b.backups, b.indexed)
  {
    var inv := StartInventory();
    assert inv.chunks[0] in inv.chunks;
  }

  function StartSweep(): Gc {
    var b := Start().bucket;
    Sweeping(b.backups, b.indexed, StartPlan(), 1, {}, false, b.chunks, 0, DAY_NANOS)
  }

  /** From any state with the bucket of Start and no collector, one can get to a sweep that has the orphan scheduled. */
  lemma CollectorSweepsStart(env: Env, s: State, t: State) returns (u: State)
    requires Reaches(env, s, t) && t.bucket == Start().bucket && t.now == 0 && t.gc == Idle
    requires env.sharedLock ==> t.lock == Free
    ensures Reaches(env, s, u)
    ensures u == t.(gc := StartSweep(), lock := if env.sharedLock then Collector else t.lock)
    ensures OrphanKey() in ObjectKeySet(StartPlan().chunkObjects)
  {
    u := CollectorLists(env, s, t);
    StartLists(env);
    StartIsPlanned([SNAPSHOT]);
    CollectorCanMark(env, s, u, [SNAPSHOT], StartInventory(), 1, DAY_NANOS, StartPlan());
    u := u.(gc := StartSweep());
    assert StartPlan().chunkObjects[0] in StartPlan().chunkObjects;
  }

  const NEW_CLOSE := Close(0, INDEX_KEY, "", Dynamic(IndexFile("", [Digest()], 5)), false)

  lemma CloseCanBegin(env: Env, s: State, t: State)
    requires Reaches(env, s, t) && t.closes == map[] && 0 in t.sessions && t.sessions[0].acked == {Digest()}
    ensures Reaches(env, s, t.(closes := map[0 := NEW_CLOSE]))
  {
    assert INDEX_KEY[|INDEX_KEY| - 5..] == DYNAMIC_SUFFIX;
    ReachesNext(env, s, t, CloseDynamic(0, 0, INDEX_KEY, "", [Digest()], 5));
  }

  /** A session that finds the orphan through the existence check and starts an index over it. */
  lemma SessionReusesOrphan(env: Env, s: State, t: State) returns (u: State)
    requires Reaches(env, s, t) && Present(t.bucket, Digest()) && t.sessions == map[] && t.closes == map[]
    requires env.sharedLock ==> t.lock != Collector
    ensures Reaches(env, s, u)
    ensures u == t.(sessions := map[0 := Session(BACKUPS + DIR, {Digest()}, {})], closes := map[0 := NEW_CLOSE],
                    lock := if env.sharedLock then Proxy else t.lock)
  {
    SessionCanBegin(env, s, t, 0, BACKUPS + DIR);
    u := t.(sessions := map[0 := Session(BACKUPS + DIR, {}, {})], lock := if env.sharedLock then Proxy else t.lock);
    ChunkCanBeAcked(env, s, u, 0, Digest());
    var none: set<string> := {};
    assert none + {Digest()} == {Digest()};
    u := u.(sessions := map[0 := Session(BACKUPS + DIR, {Digest()}, {})]);
    CloseCanBegin(env, s, u);
    u := u.(closes := map[0 := NEW_CLOSE]);
  }

  lemma DanglingIsIncomplete(b: Bucket)
    requires INDEX_KEY in b.backups && b.backups[INDEX_KEY].Digests() == [Digest()]
    requires !Present(b, Digest())
    ensures !Complete(b)
  {
    assert Digest() in b.backups[INDEX_KEY].Digests();
  }

  /** Without the shared lock, a day of grace does not save an old orphan taken up again. */
  lemma UnsharedLockLosesChunks(env: Env)
    requires !env.sharedLock
    ensures !AlwaysComplete(env)
  {
    var s := Start();
    ReachesSelf(env, s);
    StartIsFine(env);
    var t := CollectorSweepsStart(env, s, s);
    t := SessionReusesOrphan(env, s, t);
    CloseCanStore(env, s, t, 0);
    t := t.(bucket := t.bucket.(backups := t.bucket.backups[INDEX_KEY := NEW_CLOSE.obj]),
            closes := t.closes[0 := NEW_CLOSE.(stored := true)]);
    t := CollectorTakesChunk(env, s, t, OrphanKey());
    DanglingIsIncomplete(t.bucket);
  }

  /** A handler that outlives its session stores an index after the collector took its chunks. */
  lemma LateHandlerLosesChunks(env: Env)
    requires !env.handlersJoined
    ensures !AlwaysComplete(env)
  {
    var s := Start();
    ReachesSelf(env, s);
    StartIsFine(env);
    var t := SessionReusesOrphan(env, s, s);
    SessionCanEnd(env, s, t, 0);
    t := t.(sessions := map[], lock := if env.sharedLock then Free else t.lock);
    t := CollectorSweepsStart(env, s, t);
    t := CollectorTakesChunk(env, s, t, OrphanKey());
    CloseCanStore(env, s, t, 0);
    t := t.(bucket := t.bucket.(backups := t.bucket.backups[INDEX_KEY := NEW_CLOSE.obj]),
            closes := t.closes[0 := NEW_CLOSE.(stored := true)]);
    DanglingIsIncomplete(t.bucket);
  }
}
