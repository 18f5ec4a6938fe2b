/** That the grace period ends: an orphan that has reached it can be taken. */
module DatastoreAging {
  import opened Wrappers
  import opened Sums
  import opened ObjectKeys
  import opened Snapshots
  import opened Retention
  import opened GcPlan
  import opened Datastore
  import opened DatastoreRuns
  import opened DatastoreLimits

  /** A retention no `time.Duration` of grace comes near. */
  const LONG: uint64 := 200_000

  /** One retained snapshot without an index, and one chunk uploaded just now that nothing references. */
  function Uploaded(): State {
    Start().(bucket := Start().bucket.(chunks := map[OrphanKey() := Chunk(5, 0)]))
  }

  function UploadedInventory(): Inventory {
    StartInventory().(chunks := [ObjectInfo(OrphanKey(), 5, 0, false)])
  }

  function UploadedPlan(): Plan {
    Plan([], [], [], UploadedInventory().chunks, map[], {}, map[], map[], map[], 0)
  }

  lemma OldEnough(grace: nat)
    ensures ScanChunks(UploadedInventory().chunks, {}, grace, grace) ==
      Ok(ChunkScan({}, map[], UploadedInventory().chunks, 0))
  {
    var chunks := UploadedInventory().chunks;
    NameThenDigest(Digest());
    assert chunks[..0] == [];
    assert [] + [chunks[0]] == chunks;
  }

  lemma LongRetains(snapshots: seq<Snapshot>, now: nat)
    requires snapshots == [SNAPSHOT] && now < 0x8000_0000_0000_0000
    ensures !RetentionOverflows(LONG) && ExpiredPrefixes(snapshots, now, LONG) == {}
    ensures ExpiredOf(snapshots, now, LONG) == []
  {
    ExpiryIsExact(SNAPSHOT, now, LONG);
    assert !Dropped(SNAPSHOT, now, LONG);
    assert snapshots[..0] == [];
  }

  lemma UploadedIsPlanned(snapshots: seq<Snapshot>, grace: nat)
    requires snapshots == [SNAPSHOT] && grace < 0x8000_0000_0000_0000
    ensures PlanFor(snapshots, UploadedInventory(), grace, LONG, grace) == Ok(UploadedPlan())
  {
    BlobIsSkipped(UploadedInventory().loaded);
    OldEnough(grace);
    LongRetains(snapshots, grace);
    PlanAssembles(snapshots, UploadedInventory(), grace, LONG, grace);
  }

  lemma UploadedLists(env: Env)
    ensures var inv, b := UploadedInventory(), Uploaded().bucket;
      && ListsBackups(inv.backups, b.backups, b.backups) && ListsIndexed(inv.indexed, b.indexed)
      && ListsChunks(inv.chunks, b.chunks) && FaithfulLoads(env, inv, b.backups, b.indexed)
  {
    var inv := UploadedInventory();
    assert inv.chunks[0] in inv.chunks;
  }

  lemma TimeCanPass(env: Env, s: State, t: State, nanos: nat)
    requires Reaches(env, s, t)
    ensures Reaches(env, s, t.(now := t.now + nanos))
  {
    ReachesNext(env, s, t, Tick(nanos));
  }

  /** A collector that runs when the chunk has reached the grace period schedules it. */
  lemma AgedIsScheduled(env: Env, s: State, t: State, grace: nat) returns (u: State)
    requires Reaches(env, s, t) && t == Uploaded().(now := grace) && grace < 0x8000_0000_0000_0000
    ensures Reaches(env, s, u) && u.bucket == Uploaded().bucket
    ensures u.gc == Sweeping(Uploaded().bucket.backups, map[], UploadedPlan(), 1, {}, false,
                             Uploaded().bucket.chunks, grace, grace)
  {
    u := CollectorLists(env, s, t);
    UploadedLists(env);
    UploadedIsPlanned([SNAPSHOT], grace);
    CollectorCanMark(env, s, u, [SNAPSHOT], UploadedInventory(), LONG, grace, UploadedPlan());
    u := u.(gc := Marked(u, UploadedPlan(), grace));
  }

  /**
   * Grace delays and no more. Once a chunk nothing references has reached the
   * grace period, whatever its length, a collector run can take it; a moment
   * earlier none can.
   */
  lemma OrphanGoesOnceOld(env: Env, grace: nat) returns (u: State)
    requires grace < 0x8000_0000_0000_0000
    ensures Reaches(env, Uploaded(), u) && u.gc.Sweeping? && u.gc.grace == grace
    ensures u.gc.marked == Uploaded().now + grace && OrphanKey() !in u.bucket.chunks
  {
    var s := Uploaded();
    ReachesSelf(env, s);
    TimeCanPass(env, s, s, grace);
    u := AgedIsScheduled(env, s, s.(now := grace), grace);
    assert UploadedPlan().chunkObjects[0] in UploadedPlan().chunkObjects;
    u := CollectorTakesChunk(env, s, u, OrphanKey());
  }
}
