/** Composing runs of the shared bucket, one step at a time. */
module DatastoreRuns {
  import opened Sums
  import opened Wrappers
  import opened ObjectKeys
  import opened Snapshots
  import opened GcPlan
  import opened Datastore

  ghost predicate Reaches(env: Env, s: State, t: State) {
    exists steps :: Runs(env, s, steps) && Exec(env, s, steps) == t
  }

  /** No run from a quiet, complete bucket ever leaves an index without its chunks. */
  ghost predicate AlwaysComplete(env: Env) {
    forall s, t :: Quiet(env, s) && Complete(s.bucket) && Reaches(env, s, t) ==> Complete(t.bucket)
  }

  lemma {:induction false} RunsFurther(env: Env, s: State, steps: seq<Step>, step: Step)
    requires Runs(env, s, steps) && Enabled(env, Exec(env, s, steps), step)
    ensures Runs(env, s, steps + [step])
    ensures Exec(env, s, steps + [step]) == Apply(env, Exec(env, s, steps), step)
    decreases |steps|
  {
    if steps == [] {
      assert steps + [step] == [step];
      assert [step][1..] == [];
    } else {
      RunsFurther(env, Apply(env, s, steps[0]), steps[1..], step);
      assert (steps + [step])[1..] == steps[1..] + [step];
    }
  }

  lemma ReachesSelf(env: Env, s: State)
    ensures Reaches(env, s, s)
  {
    assert Runs(env, s, []) && Exec(env, s, []) == s;
  }

  lemma ReachesNext(env: Env, s: State, t: State, step: Step)
    requires Reaches(env, s, t) && Enabled(env, t, step)
    ensures Reaches(env, s, Apply(env, t, step))
  {
    var steps :| Runs(env, s, steps) && Exec(env, s, steps) == t;
    RunsFurther(env, s, steps, step);
  }

  // ------------------------------------------------------------- what can follow

  lemma SessionCanBegin(env: Env, s: State, t: State, id: nat, dir: string)
    requires Reaches(env, s, t) && id !in t.sessions && (env.sharedLock ==> t.lock != Collector)
    ensures Reaches(env, s, t.(sessions := t.sessions[id := Session(dir, {}, {})],
                               lock := if env.sharedLock then Proxy else t.lock))
  {
    ReachesNext(env, s, t, SessionBegin(id, dir));
  }

  lemma SessionCanEnd(env: Env, s: State, t: State, id: nat)
    requires Reaches(env, s, t) && t.sessions.Keys == {id} && (env.handlersJoined ==> t.closes == map[])
    ensures Reaches(env, s, t.(sessions := map[], lock := if env.sharedLock then Free else t.lock))
  {
    assert t.sessions - {id} == map[];
    ReachesNext(env, s, t, SessionEnd(id));
  }

  lemma ChunkCanBeAcked(env: Env, s: State, t: State, id: nat, d: string)
    requires Reaches(env, s, t) && id in t.sessions && Present(t.bucket, d)
    ensures Reaches(env, s, t.(sessions := t.sessions[id := t.sessions[id].(acked := t.sessions[id].acked + {d})]))
  {
    ReachesNext(env, s, t, ChunkAck(id, d));
  }

  lemma CloseCanStore(env: Env, s: State, t: State, close: nat)
    requires Reaches(env, s, t) && close in t.closes && !t.closes[close].stored
    ensures var c := t.closes[close];
      Reaches(env, s, t.(bucket := t.bucket.(backups := t.bucket.backups[c.key := c.obj]),
                         closes := t.closes[close := c.(stored := true)]))
  {
    ReachesNext(env, s, t, ClosePut(close));
  }

  lemma CloseCanCopy(env: Env, s: State, t: State, close: nat)
    requires Reaches(env, s, t) && close in t.closes && t.closes[close].stored && t.closes[close].obj.Fixed?
    requires t.closes[close].key in t.bucket.backups && t.bucket.backups[t.closes[close].key].Fixed?
    ensures var c, b := t.closes[close], t.bucket;
      Reaches(env, s,
              t.(bucket := b.(indexed := b.indexed[CopyKey(c.csum) := CopyOf(env, b.backups[c.key].file, c.csum)]),
                 closes := t.closes - {close}))
  {
    ReachesNext(env, s, t, CloseCopy(close));
  }

  lemma CloseCanFinish(env: Env, s: State, t: State, close: nat)
    requires Reaches(env, s, t) && close in t.closes
    ensures Reaches(env, s, t.(closes := t.closes - {close}))
  {
    ReachesNext(env, s, t, CloseDone(close));
  }

  lemma UserCanDelete(env: Env, s: State, t: State, key: string)
    requires Reaches(env, s, t)
    ensures Reaches(env, s, t.(bucket := Remove(t.bucket, 1, key)))
  {
    ReachesNext(env, s, t, UserDelete(key));
  }

  lemma CollectorCanLock(env: Env, s: State, t: State)
    requires Reaches(env, s, t) && t.gc == Idle && (env.sharedLock ==> t.lock == Free)
    ensures Reaches(env, s, t.(gc := Locked, lock := if env.sharedLock then Collector else t.lock))
  {
    ReachesNext(env, s, t, GcLock);
  }

  lemma CollectorCanList(env: Env, s: State, t: State)
    requires Reaches(env, s, t) && t.gc == Locked
    ensures Reaches(env, s, t.(gc := ListedIndexed(t.bucket.backups, t.bucket.indexed)))
  {
    ReachesNext(env, s, t, GcListBackups);
    var u := t.(gc := ListedBackups(t.bucket.backups));
    ReachesNext(env, s, u, GcListIndexed);
  }

  lemma CollectorCanListChunks(env: Env, s: State, t: State)
    requires Reaches(env, s, t) && t.gc.ListedIndexed?
    ensures Reaches(env, s, t.(gc := ListedChunks(t.gc.b, t.gc.i, t.bucket.chunks)))
  {
    ReachesNext(env, s, t, GcListChunks);
  }

  /** From an idle collector to complete listings, with nobody else doing anything. */
  lemma CollectorLists(env: Env, s: State, t: State) returns (u: State)
    requires Reaches(env, s, t) && t.gc == Idle && (env.sharedLock ==> t.lock == Free)
    ensures Reaches(env, s, u)
    ensures u == t.(gc := ListedChunks(t.bucket.backups, t.bucket.indexed, t.bucket.chunks),
                    lock := if env.sharedLock then Collector else t.lock)
  {
    CollectorCanLock(env, s, t);
    u := t.(gc := Locked, lock := if env.sharedLock then Collector else t.lock);
    CollectorCanList(env, s, u);
    u := u.(gc := ListedIndexed(t.bucket.backups, t.bucket.indexed));
    CollectorCanListChunks(env, s, u);
    u := u.(gc := ListedChunks(t.bucket.backups, t.bucket.indexed, t.bucket.chunks));
  }

  /** The sweep a mark starts. */
  function Marked(t: State, plan: Plan, grace: int): Gc
    requires t.gc.ListedChunks?
  {
    Sweeping(t.bucket.backups, t.gc.i, plan, 1, {}, false, t.gc.c, t.now, grace)
  }

  lemma CollectorCanMark(env: Env, s: State, t: State, snapshots: seq<Snapshot>, inv: Inventory,
                         days: uint64, grace: int, plan: Plan)
    requires Reaches(env, s, t) && t.gc.ListedChunks? && snapshots != []
    requires ListsBackups(inv.backups, t.gc.b, t.bucket.backups) && ListsIndexed(inv.indexed, t.gc.i)
    requires ListsChunks(inv.chunks, t.gc.c) && FaithfulLoads(env, inv, t.gc.b, t.gc.i)
    requires PlanFor(snapshots, inv, t.now, days, grace) == Ok(plan) && plan.missingChunks == map[]
    ensures Reaches(env, s, t.(gc := Marked(t, plan, grace)))
  {
    ReachesNext(env, s, t, GcMark(snapshots, inv, days, grace));
  }

  /** A round with nothing to delete is over at once. */
  lemma CollectorCanAdvance(env: Env, s: State, t: State)
    requires Reaches(env, s, t) && t.gc.Sweeping? && t.gc.stage < 3 && !t.gc.failed && StageKeys(t.gc) <= t.gc.done
    ensures Reaches(env, s, t.(gc := t.gc.(stage := t.gc.stage + 1, done := {})))
  {
    ReachesNext(env, s, t, GcAdvance);
  }

  lemma CollectorCanTake(env: Env, s: State, t: State, key: string)
    requires Reaches(env, s, t) && t.gc.Sweeping? && key in StageKeys(t.gc)
    ensures Reaches(env, s, t.(bucket := Remove(t.bucket, t.gc.stage, key), gc := t.gc.(done := t.gc.done + {key})))
  {
    ReachesNext(env, s, t, GcDelete(key, true, true));
  }

  /** With nothing to delete under backups/ and indexed/, a fresh sweep gets to a chunk it scheduled and takes it. */
  lemma CollectorTakesChunk(env: Env, s: State, t: State, key: string) returns (u: State)
    requires Reaches(env, s, t) && t.gc.Sweeping? && t.gc.stage == 1 && t.gc.done == {} && !t.gc.failed
    requires t.gc.plan.backupObjects == [] && t.gc.plan.indexedObjects == []
    requires key in ObjectKeySet(t.gc.plan.chunkObjects)
    ensures Reaches(env, s, u) && u.gc.Sweeping?
    ensures u == t.(bucket := Remove(t.bucket, 3, key), gc := u.gc)
    ensures u.gc.marked == t.gc.marked && u.gc.grace == t.gc.grace
  {
    CollectorCanAdvance(env, s, t);
    u := t.(gc := t.gc.(stage := 2, done := {}));
    CollectorCanAdvance(env, s, u);
    u := t.(gc := t.gc.(stage := 3, done := {}));
    CollectorCanTake(env, s, u, key);
    u := u.(bucket := Remove(u.bucket, 3, key), gc := u.gc.(done := {} + {key}));
  }

  /** No lock and no other process holds back a user, a crash, the clock, or a collector that stops. */
  lemma NothingHoldsThemBack(env: Env, s: State, key: string, nanos: nat)
    ensures Enabled(env, s, ProxyCrash) && Enabled(env, s, UserDelete(key)) && Enabled(env, s, Tick(nanos))
    ensures !IsIndex(key) ==> Enabled(env, s, PutBlob(key))
    ensures !s.gc.Idle? ==> Enabled(env, s, GcStop)
  {
  }

  /** An open session reads any index and deletes below its own directory, and its handlers may give up. */
  lemma SessionsMayReadAndAbort(env: Env, s: State, key: string, id: nat, file: string)
    ensures id in s.sessions && key in s.bucket.backups ==> Enabled(env, s, ReadIndex(id, key))
    ensures id in s.sessions ==> Enabled(env, s, AbortDelete(id, s.sessions[id].dir + "/" + file))
    ensures id in s.closes ==> Enabled(env, s, CloseDone(id))
  {
  }
}
