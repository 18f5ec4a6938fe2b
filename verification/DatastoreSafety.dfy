/** No run deletes a chunk that an index still needs. */
module DatastoreSafety {
  import opened Wrappers
  import opened Sums
  import opened ObjectKeys
  import opened Snapshots
  import opened GcPlan
  import opened GcPlanFacts
  import opened Datastore

  /** What the guarantee rests on. */
  ghost predicate Sound(env: Env) {
    NoCollisions(env) && Guarded(env)
  }

  /** The lock is shared, sessions wait for their handlers, and copies with new metadata are not mixed up. */
  predicate Guarded(env: Env) {
    env.sharedLock && env.handlersJoined && (env.replaceMetadata ==> env.closesApart)
  }

  // ---------------------------------------------------------------- invariant

  /** The lock excludes collector runs from sessions and sessions from collector runs. */
  ghost predicate LockInv(s: State) {
    && (s.lock == Proxy <==> s.sessions != map[])
    && (s.lock == Collector <==> !s.gc.Idle?)
  }

  ghost predicate SetPresent(b: Bucket, digests: set<string>) {
    forall d :: d in digests ==> Present(b, d)
  }

  ghost predicate SessionInv(env: Env, s: State) {
    && (forall id :: id in s.sessions ==> SetPresent(s.bucket, s.sessions[id].acked))
    && (forall c :: c in s.closes ==> s.closes[c].session in s.sessions)
    && (forall c :: c in s.closes ==> HonestObject(env, s.closes[c].key, s.closes[c].obj))
    && (forall c :: c in s.closes && s.closes[c].obj.Fixed? ==> s.closes[c].csum == s.closes[c].obj.file.checksum)
    && (env.replaceMetadata ==>
          && (forall c, c' :: c in s.closes && c' in s.closes && s.closes[c].key == s.closes[c'].key ==> c == c')
          && (forall c :: c in s.closes && s.closes[c].stored && s.closes[c].key in s.bucket.backups ==>
                s.bucket.backups[s.closes[c].key] == s.closes[c].obj))
  }

  /** The indexes now in the bucket were all there when it was listed. */
  ghost predicate BackupsWithin(now: map<string, BackupObject>, b: map<string, BackupObject>) {
    forall k :: k in now && !now[k].Blob? ==> k in b && b[k] == now[k]
  }

  ghost predicate IndexedWithin(now: map<string, IndexFile>, i: map<string, IndexFile>) {
    forall k :: k in now ==> k in i && i[k] == now[k]
  }

  /** What the plan being swept knows about the listing it was made from. */
  ghost predicate PlanInv(b: map<string, BackupObject>, i: map<string, IndexFile>, plan: Plan) {
    && (forall k, d :: k in b && k !in ObjectKeySet(plan.backupObjects) && d in b[k].Digests() ==>
        d in plan.knownChunks)
    && (forall k, d :: k in i && k !in ObjectKeySet(plan.indexedObjects) && d in i[k].digests ==> d in plan.knownChunks)
    && (forall key :: key in ObjectKeySet(plan.chunkObjects) ==>
          ChunkDigestFromKey(key).Some? && ChunkDigestFromKey(key).value !in plan.knownChunks)
  }

  ghost predicate NoIndexAt(bucket: Bucket, keys: set<string>) {
    forall k :: k in keys && k in bucket.backups ==> bucket.backups[k].Blob?
  }

  ghost predicate NoCopyAt(bucket: Bucket, keys: set<string>) {
    forall k :: k in keys ==> k !in bucket.indexed
  }

  /** How far the sweep got, and that it got there without leaving anything behind. */
  ghost predicate SweepInv(bucket: Bucket, gc: Gc)
    requires gc.Sweeping?
  {
    && 1 <= gc.stage <= 3
    && PlanInv(gc.b, gc.i, gc.plan)
    && (forall d :: d in gc.plan.knownChunks ==> Present(bucket, d))
    && (gc.stage == 1 ==> NoIndexAt(bucket, gc.done))
    && (gc.stage == 2 ==> NoCopyAt(bucket, gc.done))
    && (gc.stage >= 2 ==> NoIndexAt(bucket, ObjectKeySet(gc.plan.backupObjects)))
    && (gc.stage == 3 ==> NoCopyAt(bucket, ObjectKeySet(gc.plan.indexedObjects)))
  }

  ghost predicate GcInv(env: Env, s: State) {
    match s.gc
    case Idle => true
    case Locked => true
    case ListedBackups(b) => BackupsWithin(s.bucket.backups, b) && ListingHonest(env, b, map[])
    case ListedIndexed(b, i) =>
      BackupsWithin(s.bucket.backups, b) && s.bucket.indexed == i && ListingHonest(env, b, i)
    case ListedChunks(b, i, c) =>
      BackupsWithin(s.bucket.backups, b) && s.bucket.indexed == i && s.bucket.chunks == c && ListingHonest(env, b, i)
    case Sweeping(b, i, _, _, _, _, _, _, _) =>
      BackupsWithin(s.bucket.backups, b) && IndexedWithin(s.bucket.indexed, i) && SweepInv(s.bucket, s.gc)
  }

  ghost predicate ListingHonest(env: Env, b: map<string, BackupObject>, i: map<string, IndexFile>) {
    HonestBucket(env, Bucket(b, i, map[]))
  }

  ghost predicate Base(env: Env, s: State) {
    LockInv(s) && HonestBucket(env, s.bucket) && SessionInv(env, s) && GcInv(env, s)
  }

  lemma QuietIsBase(env: Env, s: State)
    requires Quiet(env, s)
    ensures Base(env, s)
  {
  }

  // ------------------------------------------------------------- preservation

  /** A checksum shared with a retained fixed index means the same references, all of them known. */
  lemma StaysMeansKnown(env: Env, s: State, snapshots: seq<Snapshot>, inv: Inventory, days: uint64, grace: int,
                        k: string, d: string)
    requires Sound(env) && s.gc.ListedChunks? && ListingHonest(env, s.gc.b, s.gc.i)
    requires ListsIndexed(inv.indexed, s.gc.i) && FaithfulLoads(env, inv, s.gc.b, s.gc.i)
    requires ListsBackups(inv.backups, s.gc.b, s.bucket.backups)
    requires PlanFor(snapshots, inv, s.now, days, grace).Ok?
    requires var plan := PlanFor(snapshots, inv, s.now, days, grace).value;
      k in s.gc.i && k !in ObjectKeySet(plan.indexedObjects) && d in s.gc.i[k].digests
    ensures d in PlanFor(snapshots, inv, s.now, days, grace).value.knownChunks
  {
    var plan := PlanFor(snapshots, inv, s.now, days, grace).value;
    var expired := ExpiredPrefixes(snapshots, s.now, days);
    PlanSparesReferences(snapshots, inv, s.now, days, grace);
    PlanIsAPartition(snapshots, inv, s.now, days, grace);
    assert k in ObjectKeySet(inv.indexed);
    var o :| o in inv.indexed && o.key == k;
    assert o !in plan.indexedObjects;
    var key :| HashOf(inv, expired, key, inv.checksums[k]);
    var j :| 0 <= j < |inv.backups| && inv.backups[j].key == key;
    assert inv.backups[j] in inv.backups;
    assert key in s.gc.b && s.gc.b[key].Fixed? by {
      SuffixesDiffer(key);
    }
    assert env.sum(s.gc.b[key].file.digests) == env.sum(s.gc.i[k].digests);
    assert References(inv, expired, key, d);
    assert Refers(plan.knownChunks, key, d);
  }

  /** An index that was there when the listing began, and stays, is listed, so its references are known. */
  lemma KeptMeansKnown(env: Env, s: State, snapshots: seq<Snapshot>, inv: Inventory, days: uint64, grace: int,
                       k: string, d: string)
    requires s.gc.ListedChunks? && k in s.bucket.backups && k in s.gc.b && s.gc.b[k] == s.bucket.backups[k]
    requires ListsBackups(inv.backups, s.gc.b, s.bucket.backups) && FaithfulLoads(env, inv, s.gc.b, s.gc.i)
    requires IsIndex(k) && d in s.bucket.backups[k].Digests()
    requires PlanFor(snapshots, inv, s.now, days, grace).Ok?
    requires k !in ObjectKeySet(PlanFor(snapshots, inv, s.now, days, grace).value.backupObjects)
    ensures d in PlanFor(snapshots, inv, s.now, days, grace).value.knownChunks
  {
    PlanSparesReferences(snapshots, inv, s.now, days, grace);
    assert k in ObjectKeySet(inv.backups);
    var o :| o in inv.backups && o.key == k;
    assert o !in PlanFor(snapshots, inv, s.now, days, grace).value.backupObjects;
  }

  /** With nothing missing, what is known was listed, and while the lock is held, is there. */
  lemma KnownMeansPresent(s: State, snapshots: seq<Snapshot>, inv: Inventory, days: uint64, grace: int, d: string)
    requires PlanFor(snapshots, inv, s.now, days, grace).Ok?
    requires PlanFor(snapshots, inv, s.now, days, grace).value.missingChunks == map[]
    requires s.gc.ListedChunks? && ListsChunks(inv.chunks, s.gc.c) && s.gc.c.Keys <= s.bucket.chunks.Keys
    requires d in PlanFor(snapshots, inv, s.now, days, grace).value.knownChunks
    ensures Present(s.bucket, d)
  {
    var o := KnownIsListed(snapshots, inv, s.now, days, grace, d);
    assert o.key in ObjectKeySet(inv.chunks);
  }

  lemma ScheduledAreUnknown(snapshots: seq<Snapshot>, inv: Inventory, now: int, days: uint64, grace: int)
    requires PlanFor(snapshots, inv, now, days, grace).Ok?
    ensures var plan := PlanFor(snapshots, inv, now, days, grace).value;
      forall key :: key in ObjectKeySet(plan.chunkObjects) ==>
        ChunkDigestFromKey(key).Some? && ChunkDigestFromKey(key).value !in plan.knownChunks
  {
    PlanSparesReferences(snapshots, inv, now, days, grace);
  }

  lemma MarkEstablishesPlan(env: Env, s: State, snapshots: seq<Snapshot>, inv: Inventory, days: uint64, grace: int)
    requires PlanFor(snapshots, inv, s.now, days, grace).Ok?
    requires Sound(env) && Base(env, s) && Enabled(env, s, GcMark(snapshots, inv, days, grace))
    ensures var plan := PlanFor(snapshots, inv, s.now, days, grace).value;
      PlanInv(s.bucket.backups, s.gc.i, plan) && forall d :: d in plan.knownChunks ==> Present(s.bucket, d)
  {
    var plan := PlanFor(snapshots, inv, s.now, days, grace).value;
    var b, i := s.bucket.backups, s.gc.i;
    ScheduledAreUnknown(snapshots, inv, s.now, days, grace);
    forall k, d | k in b && k !in ObjectKeySet(plan.backupObjects) && d in b[k].Digests()
      ensures d in plan.knownChunks
    {
      KeptMeansKnown(env, s, snapshots, inv, days, grace, k, d);
    }
    forall k, d | k in i && k !in ObjectKeySet(plan.indexedObjects) && d in i[k].digests
      ensures d in plan.knownChunks
    {
      StaysMeansKnown(env, s, snapshots, inv, days, grace, k, d);
    }
    forall d | d in plan.knownChunks ensures Present(s.bucket, d) {
      KnownMeansPresent(s, snapshots, inv, days, grace, d);
    }
  }

  predicate IsSessionStep(step: Step) {
    step.SessionBegin? || step.SessionEnd? || step.ProxyCrash? || step.ChunkPut? || step.ChunkAck? || step.ReadIndex?
  }

  predicate IsDeleteStep(step: Step) {
    step.AbortDelete? || step.UserDelete?
  }

  lemma SessionSteps(env: Env, s: State, step: Step)
    requires Sound(env) && Base(env, s) && Enabled(env, s, step)
    requires IsSessionStep(step)
    ensures Base(env, Apply(env, s, step))
  {
  }

  lemma CloseSteps(env: Env, s: State, step: Step)
    requires Sound(env) && Base(env, s) && Enabled(env, s, step)
    requires step.CloseFixed? || step.CloseDynamic?
    ensures Base(env, Apply(env, s, step))
  {
  }

  lemma DoneSteps(env: Env, s: State, step: Step)
    requires Sound(env) && Base(env, s) && Enabled(env, s, step) && step.CloseDone?
    ensures Base(env, Apply(env, s, step))
  {
  }

  lemma StoreSteps(env: Env, s: State, step: Step)
    requires Sound(env) && Base(env, s) && Enabled(env, s, step)
    requires step.ClosePut? || step.CloseCopy?
    ensures Base(env, Apply(env, s, step))
  {
    assert s.sessions != map[];
  }

  lemma DeleteSteps(env: Env, s: State, step: Step)
    requires Sound(env) && Base(env, s) && Enabled(env, s, step)
    requires IsDeleteStep(step)
    ensures Base(env, Apply(env, s, step))
  {
  }

  lemma BlobSteps(env: Env, s: State, step: Step)
    requires Sound(env) && Base(env, s) && Enabled(env, s, step)
    requires step.PutBlob? || step.Tick?
    ensures Base(env, Apply(env, s, step))
  {
  }

  lemma ListSteps(env: Env, s: State, step: Step)
    requires Sound(env) && Base(env, s) && Enabled(env, s, step)
    requires step.GcLock? || step.GcListBackups? || step.GcListIndexed? || step.GcListChunks? || step.GcStop?
    ensures Base(env, Apply(env, s, step))
  {
  }

  lemma MarkSteps(env: Env, s: State, step: Step)
    requires Sound(env) && Base(env, s) && Enabled(env, s, step) && step.GcMark?
    ensures Base(env, Apply(env, s, step))
  {
    MarkEstablishesPlan(env, s, step.snapshots, step.inv, step.days, step.grace);
  }

  lemma SweepSteps(env: Env, s: State, step: Step)
    requires Sound(env) && Base(env, s) && Enabled(env, s, step) && (step.GcDelete? || step.GcAdvance?)
    ensures Base(env, Apply(env, s, step))
  {
    if step.GcDelete? && step.took && s.gc.stage == 3 {
      forall d | d in s.gc.plan.knownChunks ensures ChunkObjectName(d) != Some(step.key) {
        ChunkKeysRoundTrip(d, step.key);
      }
    }
  }

  lemma StepKeepsBase(env: Env, s: State, step: Step)
    requires Sound(env) && Base(env, s) && Enabled(env, s, step)
    ensures Base(env, Apply(env, s, step))
  {
    if IsSessionStep(step) {
      SessionSteps(env, s, step);
    } else if step.CloseFixed? || step.CloseDynamic? {
      CloseSteps(env, s, step);
    } else if step.CloseDone? {
      DoneSteps(env, s, step);
    } else if step.ClosePut? || step.CloseCopy? {
      StoreSteps(env, s, step);
    } else if IsDeleteStep(step) {
      DeleteSteps(env, s, step);
    } else if step.PutBlob? || step.Tick? {
      BlobSteps(env, s, step);
    } else if step.GcMark? {
      MarkSteps(env, s, step);
    } else if step.GcDelete? || step.GcAdvance? {
      SweepSteps(env, s, step);
    } else {
      ListSteps(env, s, step);
    }
  }

  // ------------------------------------------------------------------- safety

  lemma OnlySweepsRemove(env: Env, s: State, step: Step, d: string)
    requires Enabled(env, s, step)
    requires Present(s.bucket, d) && !Present(Apply(env, s, step).bucket, d)
    ensures step.GcDelete? && step.took && s.gc.stage != 1 && s.gc.stage != 2 && ChunkObjectName(d) == Some(step.key)
  {
  }

  /** Only a sweep in its last phase removes a chunk, and only one that no retained index knows. */
  lemma LossIsAnOrphan(env: Env, s: State, step: Step, d: string)
    requires Sound(env) && Base(env, s) && Enabled(env, s, step)
    requires Present(s.bucket, d) && !Present(Apply(env, s, step).bucket, d)
    ensures s.gc.Sweeping? && s.gc.stage == 3 && d !in s.gc.plan.knownChunks
  {
    OnlySweepsRemove(env, s, step, d);
    ChunkKeysRoundTrip(d, step.key);
  }

  /** Whatever the state of the rest of the bucket, an index that stays keeps its chunks. */
  lemma SurvivingIndexKeepsChunks(env: Env, s: State, step: Step, k: string)
    requires Sound(env) && Base(env, s) && Enabled(env, s, step)
    requires k in s.bucket.backups && AllPresent(s.bucket, s.bucket.backups[k].Digests())
    ensures AllPresent(Apply(env, s, step).bucket, s.bucket.backups[k].Digests())
      || k !in Apply(env, s, step).bucket.backups
      || Apply(env, s, step).bucket.backups[k] != s.bucket.backups[k]
  {
    var after := Apply(env, s, step).bucket;
    if d :| d in s.bucket.backups[k].Digests() && !Present(after, d) {
      LossIsAnOrphan(env, s, step, d);
    }
  }

  lemma SurvivingCopyKeepsChunks(env: Env, s: State, step: Step, k: string)
    requires Sound(env) && Base(env, s) && Enabled(env, s, step)
    requires k in s.bucket.indexed && AllPresent(s.bucket, s.bucket.indexed[k].digests)
    ensures AllPresent(Apply(env, s, step).bucket, s.bucket.indexed[k].digests)
      || k !in Apply(env, s, step).bucket.indexed
      || Apply(env, s, step).bucket.indexed[k] != s.bucket.indexed[k]
  {
    var after := Apply(env, s, step).bucket;
    if d :| d in s.bucket.indexed[k].digests && !Present(after, d) {
      LossIsAnOrphan(env, s, step, d);
    }
  }

  /** Nothing a session was promised, and nothing it is about to write, is missing. */
  ghost predicate Promised(s: State) {
    && (forall id :: id in s.sessions ==>
          SetPresent(s.bucket, s.sessions[id].acked) && SetPresent(s.bucket, s.sessions[id].read))
    && (forall c :: c in s.closes ==> AllPresent(s.bucket, s.closes[c].obj.Digests()))
  }

  lemma SessionsLoseNothing(env: Env, s: State, step: Step, d: string)
    requires Sound(env) && Base(env, s) && Enabled(env, s, step)
    requires s.sessions != map[] && Present(s.bucket, d)
    ensures Present(Apply(env, s, step).bucket, d)
  {
    if !Present(Apply(env, s, step).bucket, d) {
      LossIsAnOrphan(env, s, step, d);
    }
  }

  lemma StepKeepsPromises(env: Env, s: State, step: Step)
    requires Sound(env) && Base(env, s) && Enabled(env, s, step)
    requires Complete(s.bucket) && Promised(s)
    ensures Promised(Apply(env, s, step))
  {
    var t := Apply(env, s, step);
    if s.sessions != map[] {
      forall d | Present(s.bucket, d) ensures Present(t.bucket, d) {
        SessionsLoseNothing(env, s, step, d);
      }
    }
    if step.CloseFixed? {
      ClosedIsPromised(env, s, step);
    }
  }

  /** A closed index holds only digests that were assigned, or reused from an existing copy. */
  lemma ClosedIsPromised(env: Env, s: State, step: Step)
    requires Enabled(env, s, step) && step.CloseFixed?
    requires Complete(s.bucket) && Promised(s)
    ensures AllPresent(s.bucket, ClosedDigests(s.bucket, step.reuse, step.assignments))
  {
    var digests := ClosedDigests(s.bucket, step.reuse, step.assignments);
    forall d | d in digests ensures Present(s.bucket, d) {
      var k :| 0 <= k < |digests| && digests[k] == d;
      if k in step.assignments {
        assert step.assignments[k] in step.assignments.Values;
      } else {
        var copy := s.bucket.indexed[CopyKey(step.reuse.value)];
        assert copy.digests[k] in copy.digests;
      }
    }
  }

  lemma StepKeepsComplete(env: Env, s: State, step: Step)
    requires Sound(env) && Base(env, s) && Enabled(env, s, step)
    requires Complete(s.bucket) && Promised(s)
    ensures Complete(Apply(env, s, step).bucket)
  {
    var t := Apply(env, s, step);
    forall k | k in t.bucket.backups ensures AllPresent(t.bucket, t.bucket.backups[k].Digests()) {
      if k in s.bucket.backups && t.bucket.backups[k] == s.bucket.backups[k] {
        SurvivingIndexKeepsChunks(env, s, step, k);
      }
    }
    forall k | k in t.bucket.indexed ensures AllPresent(t.bucket, t.bucket.indexed[k].digests) {
      if k in s.bucket.indexed && t.bucket.indexed[k] == s.bucket.indexed[k] {
        SurvivingCopyKeepsChunks(env, s, step, k);
      }
    }
  }

  /**
   * Main theorem. From a complete bucket, whatever sessions, users and
   * collector runs do, and wherever a collector run or the proxy dies, every
   * index and every copy references only existing chunks, and so does
   * everything acknowledged or sent to a session that is still open.
   */
  lemma {:induction false} EveryRunIsSafe(env: Env, s: State, steps: seq<Step>)
    requires Sound(env) && Base(env, s) && Complete(s.bucket) && Promised(s)
    requires Runs(env, s, steps)
    ensures Complete(Exec(env, s, steps).bucket) && Promised(Exec(env, s, steps)) && Base(env, Exec(env, s, steps))
    decreases |steps|
  {
    if steps != [] {
      StepKeepsBase(env, s, steps[0]);
      StepKeepsPromises(env, s, steps[0]);
      StepKeepsComplete(env, s, steps[0]);
      EveryRunIsSafe(env, Apply(env, s, steps[0]), steps[1..]);
    }
  }

  lemma {:induction false} RunsKeepBase(env: Env, s: State, steps: seq<Step>)
    requires Sound(env) && Base(env, s) && Runs(env, s, steps)
    ensures Base(env, Exec(env, s, steps))
    decreases |steps|
  {
    if steps != [] {
      StepKeepsBase(env, s, steps[0]);
      RunsKeepBase(env, Apply(env, s, steps[0]), steps[1..]);
    }
  }

  /**
   * Even in a bucket that has lost chunks, a sweep is only ever under way when
   * every index and copy it spares is complete.
   */
  lemma SweepsOnlyWithNothingMissing(env: Env, s: State, steps: seq<Step>)
    requires Sound(env) && Quiet(env, s) && Runs(env, s, steps)
    requires Exec(env, s, steps).gc.Sweeping?
    ensures var t := Exec(env, s, steps);
      && (forall k :: k in t.bucket.backups && k !in ObjectKeySet(t.gc.plan.backupObjects) ==>
            AllPresent(t.bucket, t.bucket.backups[k].Digests()))
      && (forall k :: k in t.bucket.indexed && k !in ObjectKeySet(t.gc.plan.indexedObjects) ==>
            AllPresent(t.bucket, t.bucket.indexed[k].digests))
  {
    QuietIsBase(env, s);
    RunsKeepBase(env, s, steps);
  }

  /** `k` holds the same index before and after every step of the run. */
  ghost predicate Untouched(env: Env, s: State, steps: seq<Step>, k: string)
    requires Runs(env, s, steps)
    decreases |steps|
  {
    && k in s.bucket.backups
    && (steps != [] ==>
          var t := Apply(env, s, steps[0]);
          k in t.bucket.backups && t.bucket.backups[k] == s.bucket.backups[k] && Untouched(env, t, steps[1..], k))
  }

  /** In any bucket, however damaged elsewhere: an index that was complete and was not touched still is. */
  lemma {:induction false} UntouchedIndexStaysComplete(env: Env, s: State, steps: seq<Step>, k: string)
    requires Sound(env) && Base(env, s) && Runs(env, s, steps) && Untouched(env, s, steps, k)
    requires AllPresent(s.bucket, s.bucket.backups[k].Digests())
    ensures k in Exec(env, s, steps).bucket.backups
    ensures AllPresent(Exec(env, s, steps).bucket, s.bucket.backups[k].Digests())
    decreases |steps|
  {
    if steps != [] {
      StepKeepsBase(env, s, steps[0]);
      SurvivingIndexKeepsChunks(env, s, steps[0], k);
      UntouchedIndexStaysComplete(env, Apply(env, s, steps[0]), steps[1..], k);
    }
  }
}
