/** Dropping what the caches hold of one datastore, and of no other. */
module CacheInvalidation {
  import opened ObjectKeys
  import opened TtlCache
  import opened CacheRuns

  // ----------------------------------------------------------- implementation

  method InvalidateDataStoreCachesLocal<A, B, C, D, E>(
      snapshotList: Cache<A>, dataStoreUsage: Cache<B>, usageStats: Cache<C>, archiveSize: Cache<D>,
      manifestCryptMode: Cache<E>, datastore: string)
    requires {snapshotList as object, dataStoreUsage} !! {usageStats as object} !! {archiveSize as object} !!
      {manifestCryptMode as object}
    requires snapshotList as object != dataStoreUsage
    modifies snapshotList, dataStoreUsage, usageStats, archiveSize, manifestCryptMode
    ensures snapshotList.entries ==
      old(snapshotList.entries)[datastore := AfterInvalidate(EntryOf(old(snapshotList.entries), datastore))]
    ensures dataStoreUsage.entries ==
      old(dataStoreUsage.entries)[datastore := AfterExpire(EntryOf(old(dataStoreUsage.entries), datastore))]
    ensures usageStats.entries ==
      old(usageStats.entries)[datastore := AfterInvalidate(EntryOf(old(usageStats.entries), datastore))]
    ensures archiveSize.entries == AfterInvalidatePrefix(old(archiveSize.entries), datastore + "/")
    ensures manifestCryptMode.entries == AfterInvalidatePrefix(old(manifestCryptMode.entries), datastore + "/")
  {
    snapshotList.Invalidate(datastore);
    dataStoreUsage.Expire(datastore);
    usageStats.Invalidate(datastore);
    archiveSize.InvalidatePrefix(datastore + "/");
    manifestCryptMode.InvalidatePrefix(datastore + "/");
  }

  // ------------------------------------------------------------- interleavings

  /** The entries that describe a datastore. */
  predicate Belongs(p: Place, datastore: string) {
    if p.cache.ArchiveSize? || p.cache.ManifestCryptMode? then HasPrefix(p.key, datastore + "/") else p.key == datastore
  }

  /** A name without a slash is a prefix, with its slash, of no entry of another such name. */
  lemma OneDatastoreEach(p: Place, a: string, b: string)
    requires '/' !in a && '/' !in b && Belongs(p, a) && Belongs(p, b)
    ensures a == b
  {
    if p.cache.ArchiveSize? || p.cache.ManifestCryptMode? {
      var restA, restB := p.key[|a| + 1..], p.key[|b| + 1..];
      assert p.key == a + "/" + restA == b + "/" + restB;
      FirstIndex(a, '/', restA);
      FirstIndex(b, '/', restB);
      assert a + "/" + restA == a + ['/'] + restA && b + "/" + restB == b + ['/'] + restB;
      assert p.key[..|a|] == a && p.key[..|b|] == b;
    }
  }

  /** Nothing fetched before the call can pass for recent at the places the call is done with. */
  ghost predicate CallInv(w: World) {
    w.call.Running? ==>
      var call := w.call;
      && call.since < w.tick && call.stage <= 5 && (call.todo.Some? ==> 3 <= call.stage < 5)
      && (forall p :: p in w.cells && Belongs(p, call.datastore) && IsDone(call, p) ==>
          NewerThan(w.cells[p], call.since))
  }

  /** The call has been at this place, or at this cache while the place did not exist. */
  predicate IsDone(call: Call, p: Place)
    requires call.Running?
  {
    || (exists k :: 0 <= k < call.stage && k < 5 && Target(k) == p.cache)
    || (3 <= call.stage < 5 && Target(call.stage) == p.cache && call.todo.Some? && p.key !in call.todo.value)
  }

  lemma NewCellIsNewer(since: nat)
    ensures NewerThan(NEW_CELL, since)
  {
  }

  lemma DroppedNewerThanAll(c: Cell, expires: bool, tick: nat, since: nat)
    requires c.locked.None? && forall id :: id in c.pending ==> c.pending[id].generation <= c.entry.generation
    ensures NewerThan(Dropped(c, expires, tick), since)
  {
  }

  lemma OtherStepKeepsCall(ttls: Ttls, w: World, step: Step)
    requires Inv(w) && CallInv(w) && Enabled(ttls, w, step)
    requires !step.CallNext? && !step.CallBegins? && !step.CallEnds?
    ensures CallInv(Apply(ttls, w, step))
  {
    var after := Apply(ttls, w, step);
    if w.call.Running? {
      var call := w.call;
      forall p | p in after.cells && Belongs(p, call.datastore) && IsDone(call, p)
        ensures NewerThan(after.cells[p], call.since)
      {
        if p in w.cells {
          StepKeepsNewer(ttls, w, step, p, call.since);
        } else {
          NewCellIsNewer(call.since);
        }
      }
    }
  }

  lemma CallNextKeepsCall(ttls: Ttls, w: World, key: string)
    requires Inv(w) && CallInv(w) && Enabled(ttls, w, CallNext(key))
    ensures CallInv(Apply(ttls, w, CallNext(key)))
  {
    var after := Apply(ttls, w, CallNext(key));
    var call := w.call;
    forall p | p in after.cells && Belongs(p, call.datastore) && IsDone(after.call, p)
      ensures NewerThan(after.cells[p], call.since)
    {
      var c := CellOf(w, p);
      assert p in w.cells ==> CellInv(w.cells[p], w.tick);
      if p !in w.cells || after.cells[p] != w.cells[p] {
        DroppedNewerThanAll(c, call.stage == 1, w.tick, call.since);
      }
    }
  }

  lemma {:induction false} RunKeepsCall(ttls: Ttls, w: World, steps: seq<Step>)
    requires Inv(w) && CallInv(w) && Runs(ttls, w, steps)
    ensures CallInv(Exec(ttls, w, steps)) && Inv(Exec(ttls, w, steps))
    decreases |steps|
  {
    if steps != [] {
      StepKeepsInv(ttls, w, steps[0]);
      if steps[0].CallNext? {
        CallNextKeepsCall(ttls, w, steps[0].key);
      } else if !steps[0].CallBegins? && !steps[0].CallEnds? {
        OtherStepKeepsCall(ttls, w, steps[0]);
      }
      RunKeepsCall(ttls, Apply(ttls, w, steps[0]), steps[1..]);
    }
  }

  lemma EveryCacheIsATarget(p: Place) returns (k: nat)
    ensures k < 5 && Target(k) == p.cache
  {
    k := match p.cache
      case SnapshotList => 0
      case DataStoreUsage => 1
      case UsageStats => 2
      case ArchiveSize => 3
      case ManifestCryptMode => 4;
  }

  /**
   * When the call returns, no entry of the datastore, in any of the five
   * caches, is fresh from a fetch that began before the call did; nor will a
   * fetch still under way make one so.
   */
  lemma NothingOldLooksFresh(ttls: Ttls, steps: seq<Step>, p: Place)
    requires Runs(ttls, START, steps) && Enabled(ttls, Exec(ttls, START, steps), CallEnds)
    requires var w := Exec(ttls, START, steps); p in w.cells && Belongs(p, w.call.datastore)
    ensures var w := Exec(ttls, START, steps);
      var c := w.cells[p];
      && (IsFresh(c.entry, w.now, ttls(p.cache)) && c.entry.value.Some? && c.entry.value.value.Fetched? ==>
            c.entry.value.value.began > w.call.since)
      && NewerThan(c, w.call.since)
  {
    RunKeepsCall(ttls, START, steps);
    var k := EveryCacheIsATarget(p);
    assert IsDone(Exec(ttls, START, steps).call, p);
  }

  /** No step of a call changes an entry of another datastore. */
  lemma OthersAreLeftAlone(ttls: Ttls, w: World, key: string, p: Place, other: string)
    requires CallInv(w) && CallTodo(w) && Enabled(ttls, w, CallNext(key))
    requires '/' !in w.call.datastore && '/' !in other && other != w.call.datastore && Belongs(p, other)
    ensures p in Apply(ttls, w, CallNext(key)).cells <==> p in w.cells
    ensures CellOf(Apply(ttls, w, CallNext(key)), p) == CellOf(w, p)
  {
    if Belongs(p, w.call.datastore) {
      OneDatastoreEach(p, w.call.datastore, other);
    }
  }

  /** What is left to visit lies below the prefix. */
  predicate CallTodo(w: World) {
    w.call.Running? && w.call.todo.Some? ==>
      3 <= w.call.stage < 5 && forall k :: k in w.call.todo.value ==> HasPrefix(k, w.call.datastore + "/")
  }

  lemma {:induction false} RunKeepsTodo(ttls: Ttls, w: World, steps: seq<Step>)
    requires CallTodo(w) && CallStage(w) && Runs(ttls, w, steps)
    ensures CallTodo(Exec(ttls, w, steps)) && CallStage(Exec(ttls, w, steps))
    decreases |steps|
  {
    if steps != [] {
      RunKeepsTodo(ttls, Apply(ttls, w, steps[0]), steps[1..]);
    }
  }

  predicate CallStage(w: World) {
    w.call.Running? ==> w.call.stage <= 5 && (w.call.stage < 3 ==> w.call.todo.None?)
  }

  /** In every reachable world. */
  lemma CallsKeepToTheirDatastore(ttls: Ttls, steps: seq<Step>, key: string, p: Place, other: string)
    requires Runs(ttls, START, steps) && Enabled(ttls, Exec(ttls, START, steps), CallNext(key))
    requires var w := Exec(ttls, START, steps);
      '/' !in w.call.datastore && '/' !in other && other != w.call.datastore && Belongs(p, other)
    ensures var w := Exec(ttls, START, steps);
      && (p in Apply(ttls, w, CallNext(key)).cells <==> p in w.cells)
      && CellOf(Apply(ttls, w, CallNext(key)), p) == CellOf(w, p)
  {
    RunKeepsCall(ttls, START, steps);
    RunKeepsTodo(ttls, START, steps);
    OthersAreLeftAlone(ttls, Exec(ttls, START, steps), key, p, other);
  }
}
