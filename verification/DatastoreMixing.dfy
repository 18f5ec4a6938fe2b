/** The third way to lose a chunk, and with it the exact condition under which none is lost. */
module DatastoreMixing {
  import opened Wrappers
  import opened ObjectKeys
  import opened Snapshots
  import opened GcPlan
  import opened Datastore
  import opened DatastoreSafety
  import opened DatastoreRuns
  import opened DatastoreLimits

  /** Two digests, each of which is the payload of an index that is written. */
  ghost predicate Pair(env: Env, a: string, b: string) {
    IsDigest(a) && IsDigest(b) && a != b && [a] in env.written && [b] in env.written
  }

  const HOST := "h|1|vm"
  const FILE := "r.fidx"
  const KEPT_KEY := BACKUPS + (HOST + ['/'] + FILE)
  const MIXED_KEY := BACKUPS + (DIR + ['/'] + FILE)
  const KEPT := Snapshot("h", 1, "vm", [SnapshotFile(FILE, 9)], false, false)

  function NameOf(d: string): string
    requires IsDigest(d)
  {
    ChunkObjectName(d).value
  }

  function OneBlock(env: Env, d: string): IndexFile {
    IndexFile(env.sum([d]), [d], 1)
  }

  function Chunks(a: string, b: string): map<string, Chunk>
    requires IsDigest(a) && IsDigest(b)
  {
    map[NameOf(a) := Chunk(5, 0), NameOf(b) := Chunk(5, 0)]
  }

  /** A retained index of one block, and a second chunk nobody uses yet. */
  function Before(env: Env, a: string, b: string): State
    requires IsDigest(a) && IsDigest(b)
  {
    State(Bucket(map[KEPT_KEY := Fixed(OneBlock(env, a))], map[], Chunks(a, b)), Free, map[], map[], Idle, 0)
  }

  /** The same bucket, with a copy that carries the checksum of `a` and holds `b`. */
  function Mixed(env: Env, a: string, b: string): Bucket
    requires IsDigest(a) && IsDigest(b)
  {
    var copy := OneBlock(env, b).(checksum := env.sum([a]));
    Before(env, a, b).bucket.(indexed := map[CopyKey(env.sum([a])) := copy])
  }

  lemma BothArePresent(env: Env, a: string, b: string)
    requires IsDigest(a) && IsDigest(b)
    ensures Present(Before(env, a, b).bucket, a) && Present(Before(env, a, b).bucket, b)
  {
  }

  lemma EndsFixed(front: string)
    ensures HasSuffix(front + FILE, FIXED_SUFFIX) && IsIndex(front + FILE)
  {
    assert (front + FILE)[|front + FILE| - 5..] == FIXED_SUFFIX;
  }

  lemma KeysAreFixed()
    ensures HasSuffix(KEPT_KEY, FIXED_SUFFIX) && HasSuffix(MIXED_KEY, FIXED_SUFFIX) && KEPT_KEY != MIXED_KEY
  {
    EndsFixed(BACKUPS + (HOST + ['/']));
    EndsFixed(BACKUPS + (DIR + ['/']));
    assert KEPT_KEY == BACKUPS + (HOST + ['/']) + FILE && MIXED_KEY == BACKUPS + (DIR + ['/']) + FILE;
    assert KEPT_KEY[|BACKUPS|] == 'h' && MIXED_KEY[|BACKUPS|] == 'g';
  }

  lemma BeforeIsFine(env: Env, a: string, b: string)
    requires Pair(env, a, b)
    ensures Quiet(env, Before(env, a, b)) && Complete(Before(env, a, b).bucket)
  {
    KeysAreFixed();
    BothArePresent(env, a, b);
  }

  // ----------------------------------------------------------- mixing two closes

  function CloseOf(env: Env, d: string, stored: bool): Close {
    Close(0, MIXED_KEY, env.sum([d]), Fixed(OneBlock(env, d)), stored)
  }

  lemma OneAssignment(b: Bucket, assignments: map<nat, string>, d: string)
    requires assignments == map[0 := d]
    ensures Assignable(b, None, assignments) && ClosedDigests(b, None, assignments) == [d]
    ensures assignments.Values == {d}
  {
    assert |assignments| == 1;
    assert assignments[0] == d;
  }

  /** A close of one assigned block can begin, whatever other closes of the file are under way. */
  lemma CloseCanBegin(env: Env, s: State, t: State, close: nat, d: string)
    requires Reaches(env, s, t) && !env.closesApart && [d] in env.written
    requires 0 in t.sessions && d in t.sessions[0].acked && close !in t.closes
    ensures Reaches(env, s, t.(closes := t.closes[close := CloseOf(env, d, false)]))
  {
    KeysAreFixed();
    OneAssignment(t.bucket, map[0 := d], d);
    ReachesNext(env, s, t, CloseFixed(0, close, MIXED_KEY, None, map[0 := d], 1));
  }

  function Opened(env: Env, a: string, b: string): State
    requires IsDigest(a) && IsDigest(b)
  {
    Before(env, a, b).(sessions := map[0 := Session(BACKUPS + DIR, {a, b}, {})],
                       lock := if env.sharedLock then Proxy else Free)
  }

  lemma OneMoreIsAcked(env: Env, s: State, t: State, acked: set<string>, d: string, after: set<string>)
    requires Reaches(env, s, t) && t.sessions == map[0 := Session(BACKUPS + DIR, acked, {})] && Present(t.bucket, d)
    requires after == acked + {d}
    ensures Reaches(env, s, t.(sessions := map[0 := Session(BACKUPS + DIR, after, {})]))
  {
    ChunkCanBeAcked(env, s, t, 0, d);
    assert t.sessions[0 := Session(BACKUPS + DIR, after, {})] == map[0 := Session(BACKUPS + DIR, after, {})];
  }

  lemma BothCanBeAcked(env: Env, s: State, t: State, a: string, b: string)
    requires Reaches(env, s, t) && t.sessions == map[0 := Session(BACKUPS + DIR, {}, {})]
    requires Present(t.bucket, a) && Present(t.bucket, b)
    ensures Reaches(env, s, t.(sessions := map[0 := Session(BACKUPS + DIR, {a, b}, {})]))
  {
    var none: set<string> := {};
    OneMoreIsAcked(env, s, t, none, a, {a});
    OneMoreIsAcked(env, s, t.(sessions := map[0 := Session(BACKUPS + DIR, {a}, {})]), {a}, b, {a, b});
  }

  lemma SessionOpens(env: Env, a: string, b: string)
    requires Pair(env, a, b)
    ensures Reaches(env, Before(env, a, b), Opened(env, a, b))
  {
    var s := Before(env, a, b);
    ReachesSelf(env, s);
    BothArePresent(env, a, b);
    SessionCanBegin(env, s, s, 0, BACKUPS + DIR);
    var t := s.(sessions := map[0 := Session(BACKUPS + DIR, {}, {})], lock := if env.sharedLock then Proxy else Free);
    BothCanBeAcked(env, s, t, a, b);
  }

  /** Two closes of the file, as far as each has got; the key holds what was stored last. */
  function Closing(env: Env, a: string, b: string, backups: map<string, BackupObject>, first: bool, second: bool): State
    requires IsDigest(a) && IsDigest(b)
  {
    var t := Opened(env, a, b);
    t.(bucket := t.bucket.(backups := backups),
       closes := map[0 := CloseOf(env, a, first), 1 := CloseOf(env, b, second)])
  }

  lemma BothBegin(env: Env, a: string, b: string)
    requires Pair(env, a, b) && !env.closesApart
    ensures Reaches(env, Before(env, a, b), Closing(env, a, b, Before(env, a, b).bucket.backups, false, false))
  {
    var s, t := Before(env, a, b), Opened(env, a, b);
    SessionOpens(env, a, b);
    CloseCanBegin(env, s, t, 0, a);
    t := t.(closes := map[0 := CloseOf(env, a, false)]);
    CloseCanBegin(env, s, t, 1, b);
    assert t.closes[1 := CloseOf(env, b, false)] == map[0 := CloseOf(env, a, false), 1 := CloseOf(env, b, false)];
  }

  lemma FirstStores(env: Env, a: string, b: string)
    requires Pair(env, a, b) && !env.closesApart
    ensures Reaches(env, Before(env, a, b),
                    Closing(env, a, b, Before(env, a, b).bucket.backups[MIXED_KEY := Fixed(OneBlock(env, a))],
                            true, false))
  {
    var s := Before(env, a, b);
    var t := Closing(env, a, b, s.bucket.backups, false, false);
    BothBegin(env, a, b);
    CloseCanStore(env, s, t, 0);
    assert t.closes[0 := CloseOf(env, a, true)] == map[0 := CloseOf(env, a, true), 1 := CloseOf(env, b, false)];
  }

  /** Both closes have stored their file; the second one is what the key holds. */
  function BothStored(env: Env, a: string, b: string): State
    requires IsDigest(a) && IsDigest(b)
  {
    Closing(env, a, b, Before(env, a, b).bucket.backups[MIXED_KEY := Fixed(OneBlock(env, b))], true, true)
  }

  lemma BothStore(env: Env, a: string, b: string)
    requires Pair(env, a, b) && !env.closesApart
    ensures Reaches(env, Before(env, a, b), BothStored(env, a, b))
  {
    var s := Before(env, a, b);
    var one, other := Fixed(OneBlock(env, a)), Fixed(OneBlock(env, b));
    var t := Closing(env, a, b, s.bucket.backups[MIXED_KEY := one], true, false);
    FirstStores(env, a, b);
    CloseCanStore(env, s, t, 1);
    assert t.bucket.backups[MIXED_KEY := other] == s.bucket.backups[MIXED_KEY := other];
    assert t.closes[1 := CloseOf(env, b, true)] == BothStored(env, a, b).closes;
  }

  /** Then the first is copied, under its own checksum, and the second is over. */
  lemma CopyIsMixed(env: Env, a: string, b: string)
    requires Pair(env, a, b) && !env.closesApart && env.replaceMetadata
    ensures Reaches(env, Before(env, a, b),
                    BothStored(env, a, b).(bucket := BothStored(env, a, b).bucket.(indexed := Mixed(env, a, b).indexed),
                                           closes := map[]))
  {
    var s, t := Before(env, a, b), BothStored(env, a, b);
    BothStore(env, a, b);
    CloseCanCopy(env, s, t, 0);
    assert t.closes - {0} == map[1 := CloseOf(env, b, true)];
    t := t.(bucket := t.bucket.(indexed := Mixed(env, a, b).indexed), closes := map[1 := CloseOf(env, b, true)]);
    CloseCanFinish(env, s, t, 1);
    assert t.closes - {1} == map[];
  }

  /** The file is deleted, the session ends: only the mixed copy is left behind. */
  lemma MixedIsReached(env: Env, a: string, b: string)
    requires Pair(env, a, b) && !env.closesApart && env.replaceMetadata
    ensures Reaches(env, Before(env, a, b), Before(env, a, b).(bucket := Mixed(env, a, b)))
  {
    var s, t := Before(env, a, b), BothStored(env, a, b);
    CopyIsMixed(env, a, b);
    t := t.(bucket := t.bucket.(indexed := Mixed(env, a, b).indexed), closes := map[]);
    UserCanDelete(env, s, t, MIXED_KEY);
    KeysAreFixed();
    assert s.bucket.backups[MIXED_KEY := Fixed(OneBlock(env, b))] - {MIXED_KEY} == s.bucket.backups;
    t := t.(bucket := Mixed(env, a, b));
    SessionCanEnd(env, s, t, 0);
  }

  // --------------------------------------------------------------- the collector

  function MixedInventory(env: Env, a: string, b: string): Inventory
    requires IsDigest(a) && IsDigest(b)
  {
    var sum := env.sum([a]);
    Inventory([ObjectInfo(KEPT_KEY, 9, 0, false)], [ObjectInfo(CopyKey(sum), 9, 0, false)],
              [ObjectInfo(NameOf(a), 5, 0, false), ObjectInfo(NameOf(b), 5, 0, false)],
              map[KEPT_KEY := ParsedIndex(sum, [a], 1)], map[CopyKey(sum) := sum])
  }

  lemma KeptIsRetained()
    ensures SnapshotPrefixForObject(KEPT_KEY).Some? && Retained(KEPT_KEY, {})
  {
    FirstIndex(HOST, '/', FILE);
    assert KEPT_KEY[|BACKUPS|..] == HOST + ['/'] + FILE;
    KeysAreFixed();
  }

  lemma KeptScan(loaded: map<string, ParsedIndex>, objects: seq<ObjectInfo>, sum: string, a: string)
    requires objects == [ObjectInfo(KEPT_KEY, 9, 0, false)] && loaded == map[KEPT_KEY := ParsedIndex(sum, [a], 1)]
    ensures ScanBackups(objects, {}, loaded) == Ok(BackupScan([], {sum}, map[a := [KEPT_KEY]], map[KEPT_KEY := 1]))
  {
    KeptIsRetained();
    KeysAreFixed();
    assert objects[..0] == [];
    assert [a][..0] == [];
    assert [] + [KEPT_KEY] == [KEPT_KEY];
    assert AddReferences(map[], KEPT_KEY, [a]) == map[a := [KEPT_KEY]];
    assert {} + {sum} == {sum};
  }

  lemma CopyStays(objects: seq<ObjectInfo>, checksums: map<string, string>, sum: string)
    requires objects == [ObjectInfo(CopyKey(sum), 9, 0, false)] && checksums == map[CopyKey(sum) := sum]
    ensures ScanIndexed(objects, {sum}, checksums) == Ok([])
  {
    assert objects[..0] == [];
  }

  lemma OtherIsOrphan(objects: seq<ObjectInfo>, a: string, b: string, known: set<string>)
    requires IsDigest(a) && IsDigest(b) && a != b && known == {a}
    requires objects == [ObjectInfo(NameOf(a), 5, 0, false), ObjectInfo(NameOf(b), 5, 0, false)]
    ensures ScanChunks(objects, known, 0, 0) == Ok(ChunkScan({a}, map[a := 5], [objects[1]], 0))
  {
    NameThenDigest(a);
    NameThenDigest(b);
    assert objects[..1] == [objects[0]];
    assert objects[..1][..0] == [];
    assert {} + {a} == {a} && [] + [objects[1]] == [objects[1]];
    assert ScanChunks(objects[..1], known, 0, 0) == Ok(ChunkScan({a}, map[a := 5], [], 0));
  }

  lemma KeptIsNotExpired(snapshots: seq<Snapshot>)
    requires snapshots == [KEPT]
    ensures ExpiredPrefixes(snapshots, 0, 1) == {} && ExpiredOf(snapshots, 0, 1) == []
  {
    assert !Dropped(KEPT, 0, 1);
    assert snapshots[..0] == [];
  }

  function MixedPlan(a: string, b: string): Plan
    requires IsDigest(a) && IsDigest(b)
  {
    Plan([], [], [], [ObjectInfo(NameOf(b), 5, 0, false)], map[a := [KEPT_KEY]], {a}, map[a := 5], map[KEPT_KEY := 1],
         map[], 0)
  }

  lemma MixedIsPlanned(env: Env, a: string, b: string, snapshots: seq<Snapshot>)
    requires IsDigest(a) && IsDigest(b) && a != b && snapshots == [KEPT]
    ensures PlanFor(snapshots, MixedInventory(env, a, b), 0, 1, 0) == Ok(MixedPlan(a, b))
  {
    var inv, sum := MixedInventory(env, a, b), env.sum([a]);
    var known: map<string, seq<string>> := map[a := [KEPT_KEY]];
    KeptIsNotExpired(snapshots);
    KeptScan(inv.loaded, inv.backups, sum, a);
    CopyStays(inv.indexed, inv.checksums, sum);
    assert known.Keys == {a};
    OtherIsOrphan(inv.chunks, a, b, known.Keys);
    assert Missing(known, {a}) == map[];
  }

  lemma MixedIsListed(env: Env, a: string, b: string)
    requires Pair(env, a, b)
    ensures var inv, m := MixedInventory(env, a, b), Mixed(env, a, b);
      && ListsBackups(inv.backups, m.backups, m.backups) && ListsIndexed(inv.indexed, m.indexed)
      && ListsChunks(inv.chunks, m.chunks) && FaithfulLoads(env, inv, m.backups, m.indexed)
  {
    var inv := MixedInventory(env, a, b);
    NameThenDigest(a);
    NameThenDigest(b);
    assert inv.backups[0] in inv.backups && inv.indexed[0] in inv.indexed;
    assert inv.chunks[0] in inv.chunks && inv.chunks[1] in inv.chunks;
  }

  lemma MixedCopyDangles(env: Env, a: string, b: string)
    requires IsDigest(a) && IsDigest(b)
    ensures !Complete(Remove(Mixed(env, a, b), 3, NameOf(b)))
  {
    var bucket := Remove(Mixed(env, a, b), 3, NameOf(b));
    assert b in bucket.indexed[CopyKey(env.sum([a]))].digests;
    assert !Present(bucket, b);
  }

  /**
   * With a storage class for copies, two closes of one file side by side leave
   * a copy under the checksum of one that holds the other. A retained index
   * with that checksum keeps the copy, and a collector run takes its chunk.
   */
  lemma MixedClosesLoseChunks(env: Env, a: string, b: string)
    requires env.replaceMetadata && !env.closesApart && Pair(env, a, b)
    ensures !AlwaysComplete(env)
  {
    var s, m := Before(env, a, b), Mixed(env, a, b);
    BeforeIsFine(env, a, b);
    MixedIsReached(env, a, b);
    var t := CollectorLists(env, s, s.(bucket := m));
    MixedIsListed(env, a, b);
    MixedIsPlanned(env, a, b, [KEPT]);
    CollectorCanMark(env, s, t, [KEPT], MixedInventory(env, a, b), 1, 0, MixedPlan(a, b));
    t := t.(gc := Marked(t, MixedPlan(a, b), 0));
    assert MixedPlan(a, b).chunkObjects[0] in MixedPlan(a, b).chunkObjects;
    t := CollectorTakesChunk(env, s, t, NameOf(b));
    MixedCopyDangles(env, a, b);
  }

  /** Guarded is enough. */
  lemma GuardedStaysComplete(env: Env)
    requires Sound(env)
    ensures AlwaysComplete(env)
  {
    forall s, t | Quiet(env, s) && Complete(s.bucket) && Reaches(env, s, t) ensures Complete(t.bucket) {
      var steps :| Runs(env, s, steps) && Exec(env, s, steps) == t;
      QuietIsBase(env, s);
      EveryRunIsSafe(env, s, steps);
    }
  }

  /**
   * The exact condition, for clients that are honest about their digests and
   * checksums and write two different indexes at all: collector and proxy
   * share their lock, sessions wait for their handlers, and where copies get
   * new metadata no file is closed twice at the same time.
   */
  lemma CompleteIffGuarded(env: Env, a: string, b: string)
    requires NoCollisions(env) && Pair(env, a, b)
    ensures AlwaysComplete(env) <==>
      env.sharedLock && env.handlersJoined && (env.replaceMetadata ==> env.closesApart)
  {
    if !env.sharedLock {
      UnsharedLockLosesChunks(env);
    } else if !env.handlersJoined {
      LateHandlerLosesChunks(env);
    } else if env.replaceMetadata && !env.closesApart {
      MixedClosesLoseChunks(env, a, b);
    } else {
      GuardedStaysComplete(env);
    }
  }
}
