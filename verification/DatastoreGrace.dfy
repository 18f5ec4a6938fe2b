/** What the grace period gives by itself: no lock, no honest client, no condition on the run. */
module DatastoreGrace {
  import opened Wrappers
  import opened Sums
  import opened ObjectKeys
  import opened Snapshots
  import opened GcPlan
  import opened GcPlanFacts
  import opened Datastore
  import opened DatastoreSafety

  /** Everything the sweep may take was listed, and was old when the plan was made. */
  ghost predicate TakesOnlyOld(s: State) {
    s.gc.Sweeping? ==>
      forall key :: key in ObjectKeySet(s.gc.plan.chunkObjects) ==>
        key in s.gc.c && (s.gc.grace <= 0 || s.gc.c[key].lastModified + s.gc.grace <= s.gc.marked)
  }

  lemma MarkTakesOnlyOld(env: Env, s: State, step: Step)
    requires Enabled(env, s, step) && step.GcMark?
    ensures TakesOnlyOld(Apply(env, s, step))
  {
    PlanSparesReferences(step.snapshots, step.inv, s.now, step.days, step.grace);
    var plan := PlanFor(step.snapshots, step.inv, s.now, step.days, step.grace).value;
    forall key | key in ObjectKeySet(plan.chunkObjects)
      ensures key in s.gc.c && (step.grace <= 0 || s.gc.c[key].lastModified + step.grace <= s.now)
    {
      var o :| o in plan.chunkObjects && o.key == key;
      assert o.key in ObjectKeySet(step.inv.chunks);
    }
  }

  lemma {:induction false} RunTakesOnlyOld(env: Env, s: State, steps: seq<Step>)
    requires TakesOnlyOld(s) && Runs(env, s, steps)
    ensures TakesOnlyOld(Exec(env, s, steps))
    decreases |steps|
  {
    if steps != [] {
      if steps[0].GcMark? {
        MarkTakesOnlyOld(env, s, steps[0]);
      }
      RunTakesOnlyOld(env, Apply(env, s, steps[0]), steps[1..]);
    }
  }

  /** Not listed when the sweep was planned, or written within its grace period. */
  predicate Young(gc: Gc, key: string)
    requires gc.Sweeping?
  {
    key !in gc.c || (gc.grace > 0 && gc.c[key].lastModified + gc.grace > gc.marked)
  }

  /**
   * In every run of every environment: a chunk that was not there when the
   * collector listed the chunks, or was written within the grace period before
   * the mark, is not taken by that sweep, whoever else uses the bucket.
   */
  lemma GraceSparesTheYoung(env: Env, s: State, steps: seq<Step>, key: string)
    requires s.gc.Idle? && Runs(env, s, steps) && Exec(env, s, steps).gc.Sweeping?
    requires Young(Exec(env, s, steps).gc, key)
    ensures key !in ObjectKeySet(Exec(env, s, steps).gc.plan.chunkObjects)
  {
    RunTakesOnlyOld(env, s, steps);
  }

  /** So whatever chunk a step removes was listed, and older than the grace period when the plan was made. */
  lemma OnlyTheOldGo(env: Env, s: State, steps: seq<Step>, step: Step, key: string)
    requires s.gc.Idle? && Runs(env, s, steps) && Enabled(env, Exec(env, s, steps), step)
    requires key in Exec(env, s, steps).bucket.chunks && key !in Apply(env, Exec(env, s, steps), step).bucket.chunks
    ensures var gc := Exec(env, s, steps).gc;
      gc.Sweeping? && key in gc.c && (gc.grace <= 0 || gc.c[key].lastModified + gc.grace <= gc.marked)
  {
    RunTakesOnlyOld(env, s, steps);
    RemovesAStageKey(env, Exec(env, s, steps), step, key);
  }

  lemma RemovesAStageKey(env: Env, s: State, step: Step, key: string)
    requires Enabled(env, s, step) && key in s.bucket.chunks && key !in Apply(env, s, step).bucket.chunks
    ensures s.gc.Sweeping? && key in ObjectKeySet(s.gc.plan.chunkObjects)
  {
    if !step.GcDelete? {
      ChunksStay(env, s, step);
    }
  }

  /** Chunks come by uploads and go by the collector's deletes; no other step touches them. */
  lemma ChunksStay(env: Env, s: State, step: Step)
    requires Enabled(env, s, step) && !step.GcDelete?
    ensures forall key :: key in s.bucket.chunks ==> key in Apply(env, s, step).bucket.chunks
  {
    if IsSessionStep(step) {
      assert step.ChunkPut? || Apply(env, s, step).bucket == s.bucket;
    } else {
      assert Apply(env, s, step).bucket.chunks == s.bucket.chunks;
    }
  }

  // ------------------------------------------------------------- whole indexes

  /** The object belongs to a snapshot the plan found expired. */
  predicate OfExpired(plan: Plan, key: string) {
    exists i :: 0 <= i < |plan.expiredSnapshots| &&
      SnapshotPrefixForObject(key) == Some(plan.expiredSnapshots[i].S3Prefix())
  }

  ghost predicate TakesOnlyExpired(s: State) {
    s.gc.Sweeping? ==> forall key :: key in ObjectKeySet(s.gc.plan.backupObjects) ==> OfExpired(s.gc.plan, key)
  }

  lemma {:induction false} ExpiredAreListed(snapshots: seq<Snapshot>, now: int, days: uint64, i: nat) returns (j: nat)
    requires i < |snapshots| && Dropped(snapshots[i], now, days)
    ensures j < |ExpiredOf(snapshots, now, days)| && ExpiredOf(snapshots, now, days)[j] == snapshots[i]
    decreases |snapshots|
  {
    var n := |snapshots| - 1;
    if i < n {
      j := ExpiredAreListed(snapshots[..n], now, days, i);
    } else {
      j := |ExpiredOf(snapshots[..n], now, days)|;
    }
  }

  lemma PlanTakesOnlyExpired(snapshots: seq<Snapshot>, inv: Inventory, now: int, days: uint64, grace: int)
    requires PlanFor(snapshots, inv, now, days, grace).Ok?
    ensures var plan := PlanFor(snapshots, inv, now, days, grace).value;
      forall key :: key in ObjectKeySet(plan.backupObjects) ==> OfExpired(plan, key)
  {
    var plan := PlanFor(snapshots, inv, now, days, grace).value;
    var expired := ExpiredPrefixes(snapshots, now, days);
    forall key | key in ObjectKeySet(plan.backupObjects) ensures OfExpired(plan, key) {
      var o :| o in plan.backupObjects && o.key == key;
      ScheduledExactly(inv.backups, expired, inv.loaded, o);
      var i :| 0 <= i < |snapshots| && Dropped(snapshots[i], now, days) &&
        snapshots[i].S3Prefix() == SnapshotPrefixForObject(key).value;
      var j := ExpiredAreListed(snapshots, now, days, i);
      assert plan.expiredSnapshots[j] == snapshots[i];
    }
  }

  lemma MarkTakesOnlyExpired(env: Env, s: State, step: Step)
    requires Enabled(env, s, step) && step.GcMark?
    ensures TakesOnlyExpired(Apply(env, s, step))
  {
    PlanTakesOnlyExpired(step.snapshots, step.inv, s.now, step.days, step.grace);
  }

  lemma {:induction false} RunTakesOnlyExpired(env: Env, s: State, steps: seq<Step>)
    requires TakesOnlyExpired(s) && Runs(env, s, steps)
    ensures TakesOnlyExpired(Exec(env, s, steps))
    decreases |steps|
  {
    if steps != [] {
      if steps[0].GcMark? {
        MarkTakesOnlyExpired(env, s, steps[0]);
      }
      RunTakesOnlyExpired(env, Apply(env, s, steps[0]), steps[1..]);
    }
  }

  predicate NoNewPlan(steps: seq<Step>) {
    forall i :: 0 <= i < |steps| ==> !steps[i].GcMark?
  }

  /** No session and no user deletes the object. */
  predicate NobodyDeletes(steps: seq<Step>, key: string) {
    forall i :: 0 <= i < |steps| ==> !DeletedBy(steps[i], key)
  }

  predicate DeletedBy(step: Step, key: string) {
    (step.UserDelete? || step.AbortDelete?) && step.key == key
  }

  lemma StepKeepsPlan(env: Env, s: State, step: Step)
    requires Enabled(env, s, step) && !step.GcMark? && Apply(env, s, step).gc.Sweeping?
    ensures s.gc.Sweeping? && Apply(env, s, step).gc.plan == s.gc.plan
  {
  }

  lemma StepKeepsObject(env: Env, s: State, step: Step, key: string)
    requires Enabled(env, s, step) && key in s.bucket.backups && !DeletedBy(step, key)
    requires s.gc.Sweeping? ==> key !in ObjectKeySet(s.gc.plan.backupObjects)
    ensures key in Apply(env, s, step).bucket.backups
  {
  }

  lemma StepKeepsUnplanned(env: Env, s: State, step: Step, plan: Plan, chunk: string, key: string)
    requires Enabled(env, s, step) && !step.GcMark? && (s.gc.Sweeping? ==> s.gc.plan == plan)
    ensures var t := Apply(env, s, step);
      && (t.gc.Sweeping? ==> t.gc.plan == plan)
      && (chunk in s.bucket.chunks && chunk !in ObjectKeySet(plan.chunkObjects) ==> chunk in t.bucket.chunks)
      && (key in s.bucket.backups && key !in ObjectKeySet(plan.backupObjects) && !DeletedBy(step, key) ==>
            key in t.bucket.backups)
  {
    var t := Apply(env, s, step);
    if t.gc.Sweeping? {
      StepKeepsPlan(env, s, step);
    }
    if chunk in s.bucket.chunks && chunk !in t.bucket.chunks {
      RemovesAStageKey(env, s, step, chunk);
    }
    if key in s.bucket.backups && key !in ObjectKeySet(plan.backupObjects) && !DeletedBy(step, key) {
      StepKeepsObject(env, s, step, key);
    }
  }

  lemma {:induction false} RunKeepsUnplanned(env: Env, s: State, steps: seq<Step>, plan: Plan, chunk: string,
                                             key: string)
    requires Runs(env, s, steps) && NoNewPlan(steps) && (s.gc.Sweeping? ==> s.gc.plan == plan)
    ensures var t := Exec(env, s, steps);
      && (chunk in s.bucket.chunks && chunk !in ObjectKeySet(plan.chunkObjects) ==> chunk in t.bucket.chunks)
      && (key in s.bucket.backups && key !in ObjectKeySet(plan.backupObjects) && NobodyDeletes(steps, key) ==>
            key in t.bucket.backups)
    decreases |steps|
  {
    if steps != [] {
      StepKeepsUnplanned(env, s, steps[0], plan, chunk, key);
      RunKeepsUnplanned(env, Apply(env, s, steps[0]), steps[1..], plan, chunk, key);
    }
  }

  /**
   * What grace does for a backup, with no lock shared and whatever clients do:
   * an index that is complete while a sweep is under way, and whose chunks were
   * all unlisted or young at the mark, keeps them until the next plan is made;
   * and if its snapshot was not expired, the sweep does not take it either.
   */
  lemma GraceSparesAnIndex(env: Env, s: State, steps: seq<Step>, more: seq<Step>, key: string)
    requires s.gc.Idle? && Runs(env, s, steps) && Exec(env, s, steps).gc.Sweeping?
    requires Runs(env, Exec(env, s, steps), more) && NoNewPlan(more)
    requires var t := Exec(env, s, steps);
      && key in t.bucket.backups && AllPresent(t.bucket, t.bucket.backups[key].Digests())
      && (forall d :: d in t.bucket.backups[key].Digests() ==> Young(t.gc, ChunkObjectName(d).value))
    ensures var t := Exec(env, s, steps);
      var u := Exec(env, t, more);
      && AllPresent(u.bucket, t.bucket.backups[key].Digests())
      && (!OfExpired(t.gc.plan, key) && NobodyDeletes(more, key) ==> key in u.bucket.backups)
  {
    var t := Exec(env, s, steps);
    var u := Exec(env, t, more);
    RunTakesOnlyOld(env, s, steps);
    RunTakesOnlyExpired(env, s, steps);
    forall d | d in t.bucket.backups[key].Digests() ensures Present(u.bucket, d) {
      assert Present(t.bucket, d);
      RunKeepsUnplanned(env, t, more, t.gc.plan, ChunkObjectName(d).value, key);
    }
    RunKeepsUnplanned(env, t, more, t.gc.plan, key, key);
  }

  // ------------------------------------------------------------------- uploads

  /** Wherever the chunk is seen, in the bucket or in a listing, it is no older than `since`. */
  ghost predicate SeenSince(s: State, key: string, since: int) {
    && s.now >= since
    && (key in s.bucket.chunks ==> s.bucket.chunks[key].lastModified >= since)
    && (s.gc.ListedChunks? || s.gc.Sweeping? ==> key in s.gc.c ==> s.gc.c[key].lastModified >= since)
  }

  lemma StepKeepsSeen(env: Env, s: State, step: Step, key: string, since: int)
    requires Enabled(env, s, step) && SeenSince(s, key, since)
    ensures SeenSince(Apply(env, s, step), key, since)
  {
    if IsSessionStep(step) {
      assert Apply(env, s, step).gc == s.gc;
    } else if !step.GcDelete? {
      assert Apply(env, s, step).bucket.chunks == s.bucket.chunks;
    }
  }

  lemma {:induction false} RunKeepsSeen(env: Env, s: State, steps: seq<Step>, key: string, since: int)
    requires Runs(env, s, steps) && SeenSince(s, key, since)
    ensures SeenSince(Exec(env, s, steps), key, since)
    decreases |steps|
  {
    if steps != [] {
      StepKeepsSeen(env, s, steps[0], key, since);
      RunKeepsSeen(env, Apply(env, s, steps[0]), steps[1..], key, since);
    }
  }

  /**
   * What grace promises a backup that is being written: a chunk uploaded while
   * no list of the chunks was in use is spared by every sweep whose plan was
   * made within the grace period after the upload.
   */
  lemma GraceSparesAnUpload(env: Env, s: State, put: Step, more: seq<Step>)
    requires put.ChunkPut? && Enabled(env, s, put) && !s.gc.ListedChunks? && !s.gc.Sweeping?
    requires Runs(env, Apply(env, s, put), more)
    requires var gc := Exec(env, Apply(env, s, put), more).gc;
      gc.Sweeping? && gc.grace > 0 && gc.marked < s.now + gc.grace
    ensures ChunkObjectName(put.digest).value !in
      ObjectKeySet(Exec(env, Apply(env, s, put), more).gc.plan.chunkObjects)
  {
    var t := Apply(env, s, put);
    RunKeepsSeen(env, t, more, ChunkObjectName(put.digest).value, s.now);
    RunTakesOnlyOld(env, t, more);
  }
}
