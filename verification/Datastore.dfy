/**
 * One bucket, shared by backup and restore sessions, by users deleting
 * snapshots and by collector runs. A run is any sequence of the steps below.
 */
module Datastore {
  import opened Wrappers
  import opened Sums
  import opened ObjectKeys
  import opened Snapshots
  import opened GcPlan

  // -------------------------------------------------------------------- state

  datatype IndexFile = IndexFile(checksum: string, digests: seq<string>, logicalSize: uint64)

  datatype BackupObject = Fixed(file: IndexFile) | Dynamic(file: IndexFile) | Blob
  {
    function Digests(): seq<string> {
      if Blob? then [] else file.digests
    }
  }

  datatype Chunk = Chunk(size: uint64, lastModified: int)

  datatype Bucket = Bucket(
    backups: map<string, BackupObject>,
    indexed: map<string, IndexFile>,
    chunks: map<string, Chunk>)

  /** Who holds the named process lock of the bucket. */
  datatype Lock = Free | Proxy | Collector

  /** What a session may rely on: chunks acknowledged to it, digests of indexes it was sent. */
  datatype Session = Session(dir: string, acked: set<string>, read: set<string>)

  /** A close handler in flight: the index is computed, stored, then copied. */
  datatype Close = Close(session: nat, key: string, csum: string, obj: BackupObject, stored: bool)

  datatype Gc =
    | Idle
    | Locked
    | ListedBackups(b: map<string, BackupObject>)
    | ListedIndexed(b: map<string, BackupObject>, i: map<string, IndexFile>)
    | ListedChunks(b: map<string, BackupObject>, i: map<string, IndexFile>, c: map<string, Chunk>)
    | Sweeping(b: map<string, BackupObject>, i: map<string, IndexFile>, plan: Plan, stage: nat,
               done: set<string>, failed: bool, c: map<string, Chunk>, marked: int, grace: int)

  datatype State = State(
    bucket: Bucket,
    lock: Lock,
    sessions: map<nat, Session>,
    closes: map<nat, Close>,
    gc: Gc,
    now: int)

  /**
   * What the run takes for granted. `sum` is the hex SHA-256 of a fixed index
   * payload and `written` the payloads ever written to the bucket.
   * `replaceMetadata` is set when a storage class is configured for copies.
   * `closesApart`: no file is closed again before an earlier close of it is over.
   * `sharedLock`: collector and proxy use the same process lock.
   * `handlersJoined`: a session does not end before its handlers return.
   */
  datatype Env = Env(
    sum: seq<string> -> string,
    written: set<seq<string>>,
    replaceMetadata: bool,
    closesApart: bool,
    sharedLock: bool,
    handlersJoined: bool)

  ghost predicate NoCollisions(env: Env) {
    forall p, q :: p in env.written && q in env.written && env.sum(p) == env.sum(q) ==> p == q
  }

  // -------------------------------------------------------------------- steps

  datatype Step =
    | SessionBegin(id: nat, dir: string)
    | SessionEnd(id: nat)
    | ProxyCrash
    | ChunkPut(id: nat, digest: string, size: uint64)
    | ChunkAck(id: nat, digest: string)
    | ReadIndex(id: nat, key: string)
    | CloseFixed(id: nat, close: nat, key: string, reuse: Option<string>, assignments: map<nat, string>, size: uint64)
    | CloseDynamic(id: nat, close: nat, key: string, csum: string, digests: seq<string>, size: uint64)
    | ClosePut(close: nat)
    | CloseCopy(close: nat)
    | CloseDone(close: nat)
    | AbortDelete(id: nat, key: string)
    | UserDelete(key: string)
    | PutBlob(key: string)
    | Tick(nanos: nat)
    | GcLock
    | GcListBackups
    | GcListIndexed
    | GcListChunks
    | GcMark(snapshots: seq<Snapshot>, inv: Inventory, days: uint64, grace: int)
    | GcDelete(key: string, ok: bool, took: bool)
    | GcAdvance
    | GcStop

  function CopyKey(csum: string): string {
    "indexed/" + csum + FIXED_SUFFIX
  }

  predicate Present(b: Bucket, d: string) {
    ChunkObjectName(d).Some? && ChunkObjectName(d).value in b.chunks
  }

  ghost predicate AllPresent(b: Bucket, digests: seq<string>) {
    forall d :: d in digests ==> Present(b, d)
  }

  /** The digests of a closed fixed index: the reused ones, overwritten where assigned. */
  function Overlay(base: seq<string>, assignments: map<nat, string>): seq<string> {
    seq(|base|, k requires 0 <= k < |base| => if k in assignments then assignments[k] else base[k])
  }

  /** Every block of a new index has to be assigned; a reused one supplies the rest. */
  ghost predicate Assignable(b: Bucket, reuse: Option<string>, assignments: map<nat, string>) {
    match reuse
    case None => forall k: nat :: k in assignments <==> k < |assignments|
    case Some(csum) =>
      CopyKey(csum) in b.indexed && forall k :: k in assignments ==> k < |b.indexed[CopyKey(csum)].digests|
  }

  ghost function ClosedDigests(b: Bucket, reuse: Option<string>, assignments: map<nat, string>): seq<string>
    requires Assignable(b, reuse, assignments)
  {
    match reuse
    case None => Overlay(seq(|assignments|, _ => ""), assignments)
    case Some(csum) => Overlay(b.indexed[CopyKey(csum)].digests, assignments)
  }

  function ObjectKeySet(objects: seq<ObjectInfo>): set<string> {
    set o | o in objects :: o.key
  }

  /**
   * A complete listing, begun when the bucket held `before` and used when it
   * holds `now`: nothing that was not there, and every index that was and still is.
   */
  ghost predicate ListsBackups(objects: seq<ObjectInfo>, before: map<string, BackupObject>,
                               now: map<string, BackupObject>)
  {
    && (forall o :: o in objects ==> o.key in before)
    && (forall k :: k in now && !now[k].Blob? && k in before ==> k in ObjectKeySet(objects))
  }

  ghost predicate ListsIndexed(objects: seq<ObjectInfo>, i: map<string, IndexFile>) {
    ObjectKeySet(objects) == i.Keys
  }

  ghost predicate ListsChunks(objects: seq<ObjectInfo>, c: map<string, Chunk>) {
    && ObjectKeySet(objects) == c.Keys
    && forall o :: o in objects ==> o.size == c[o.key].size && o.lastModified == c[o.key].lastModified
  }

  /**
   * Loaders return what the object holds or nothing at all; a fixed index only
   * loads when the checksum it carries is the one of its payload.
   */
  ghost predicate FaithfulLoads(env: Env, inv: Inventory, b: map<string, BackupObject>, i: map<string, IndexFile>) {
    && (forall k :: k in inv.loaded ==> k in b && !b[k].Blob? && inv.loaded[k].digests == b[k].file.digests)
    && (forall k :: k in inv.loaded && b[k].Fixed? ==>
          inv.loaded[k].checksum == b[k].file.checksum == env.sum(b[k].file.digests))
    && (forall k :: k in inv.checksums ==> k in i && inv.checksums[k] == i[k].checksum)
  }

  function StageKeys(gc: Gc): set<string>
    requires gc.Sweeping?
  {
    ObjectKeySet(if gc.stage == 1 then gc.plan.backupObjects
                 else if gc.stage == 2 then gc.plan.indexedObjects else gc.plan.chunkObjects)
  }

  ghost predicate Enabled(env: Env, s: State, step: Step) {
    match step
    case SessionBegin(id, _) => id !in s.sessions && (env.sharedLock ==> s.lock != Collector)
    case SessionEnd(id) =>
      id in s.sessions && (env.handlersJoined ==> forall c :: c in s.closes ==> s.closes[c].session != id)
    case ProxyCrash => true
    case ChunkPut(id, digest, _) => id in s.sessions && ChunkObjectName(digest).Some?
    case ChunkAck(id, digest) => id in s.sessions && Present(s.bucket, digest)
    case ReadIndex(id, key) => id in s.sessions && key in s.bucket.backups
    case CloseFixed(id, close, key, reuse, assignments, size) =>
      && id in s.sessions && close !in s.closes && HasSuffix(key, FIXED_SUFFIX)
      && assignments.Values <= s.sessions[id].acked + s.sessions[id].read
      && Assignable(s.bucket, reuse, assignments)
      && ClosedDigests(s.bucket, reuse, assignments) in env.written
      && (env.closesApart ==> forall c :: c in s.closes ==> s.closes[c].key != key)
    case CloseDynamic(id, close, key, _, digests, _) =>
      && id in s.sessions && close !in s.closes && HasSuffix(key, DYNAMIC_SUFFIX)
      && (forall d :: d in digests ==> d in s.sessions[id].acked + s.sessions[id].read)
      && (env.closesApart ==> forall c :: c in s.closes ==> s.closes[c].key != key)
    case ClosePut(close) => close in s.closes && !s.closes[close].stored
    case CloseCopy(close) =>
      && close in s.closes && s.closes[close].stored && s.closes[close].obj.Fixed?
      && s.closes[close].key in s.bucket.backups && s.bucket.backups[s.closes[close].key].Fixed?
    case CloseDone(close) => close in s.closes
    case AbortDelete(id, key) => id in s.sessions && HasPrefix(key, s.sessions[id].dir + "/")
    case UserDelete(_) => true
    case PutBlob(key) => !IsIndex(key)
    case Tick(_) => true
    case GcLock => s.gc.Idle? && (env.sharedLock ==> s.lock == Free)
    case GcListBackups => s.gc.Locked?
    case GcListIndexed => s.gc.ListedBackups?
    case GcListChunks => s.gc.ListedIndexed?
    case GcMark(snapshots, inv, days, grace) =>
      && s.gc.ListedChunks? && snapshots != []
      && ListsBackups(inv.backups, s.gc.b, s.bucket.backups)
      && ListsIndexed(inv.indexed, s.gc.i) && ListsChunks(inv.chunks, s.gc.c)
      && FaithfulLoads(env, inv, s.gc.b, s.gc.i)
      && PlanFor(snapshots, inv, s.now, days, grace).Ok?
      && PlanFor(snapshots, inv, s.now, days, grace).value.missingChunks == map[]
    case GcDelete(key, ok, took) => s.gc.Sweeping? && key in StageKeys(s.gc) && (ok ==> took)
    case GcAdvance => s.gc.Sweeping? && s.gc.stage < 3 && !s.gc.failed && StageKeys(s.gc) <= s.gc.done
    case GcStop => !s.gc.Idle?
  }

  function Remove(b: Bucket, stage: nat, key: string): Bucket {
    if stage == 1 then b.(backups := b.backups - {key})
    else if stage == 2 then b.(indexed := b.indexed - {key})
    else b.(chunks := b.chunks - {key})
  }

  /** What CopyObject leaves under indexed/. */
  function CopyOf(env: Env, source: IndexFile, csum: string): IndexFile {
    if env.replaceMetadata then source.(checksum := csum) else source
  }

  ghost function Apply(env: Env, s: State, step: Step): State
    requires Enabled(env, s, step)
  {
    var b := s.bucket;
    match step
    case SessionBegin(id, dir) =>
      s.(sessions := s.sessions[id := Session(dir, {}, {})], lock := if env.sharedLock then Proxy else s.lock)
    case SessionEnd(id) =>
      var rest := s.sessions - {id};
      s.(sessions := rest, lock := if env.sharedLock && rest == map[] then Free else s.lock)
    case ProxyCrash =>
      s.(sessions := map[], closes := map[], lock := if s.lock == Proxy then Free else s.lock)
    case ChunkPut(_, digest, size) =>
      s.(bucket := b.(chunks := b.chunks[ChunkObjectName(digest).value := Chunk(size, s.now)]))
    case ChunkAck(id, digest) =>
      s.(sessions := s.sessions[id := s.sessions[id].(acked := s.sessions[id].acked + {digest})])
    case ReadIndex(id, key) =>
      var sent := set d | d in b.backups[key].Digests();
      s.(sessions := s.sessions[id := s.sessions[id].(read := s.sessions[id].read + sent)])
    case CloseFixed(id, close, key, reuse, assignments, size) =>
      var digests := ClosedDigests(b, reuse, assignments);
      var csum := env.sum(digests);
      s.(closes := s.closes[close := Close(id, key, csum, Fixed(IndexFile(csum, digests, size)), false)])
    case CloseDynamic(id, close, key, csum, digests, size) =>
      s.(closes := s.closes[close := Close(id, key, csum, Dynamic(IndexFile(csum, digests, size)), false)])
    case ClosePut(close) =>
      var c := s.closes[close];
      s.(bucket := b.(backups := b.backups[c.key := c.obj]), closes := s.closes[close := c.(stored := true)])
    case CloseCopy(close) =>
      var c := s.closes[close];
      s.(bucket := b.(indexed := b.indexed[CopyKey(c.csum) := CopyOf(env, b.backups[c.key].file, c.csum)]),
         closes := s.closes - {close})
    case CloseDone(close) => s.(closes := s.closes - {close})
    case AbortDelete(_, key) => s.(bucket := Remove(b, 1, key))
    case UserDelete(key) => s.(bucket := Remove(b, 1, key))
    case PutBlob(key) => s.(bucket := b.(backups := b.backups[key := Blob]))
    case Tick(nanos) => s.(now := s.now + nanos)
    case GcLock => s.(gc := Locked, lock := if env.sharedLock then Collector else s.lock)
    case GcListBackups => s.(gc := ListedBackups(b.backups))
    case GcListIndexed => s.(gc := ListedIndexed(s.gc.b, b.indexed))
    case GcListChunks => s.(gc := ListedChunks(s.gc.b, s.gc.i, b.chunks))
    case GcMark(snapshots, inv, days, grace) =>
      s.(gc := Sweeping(b.backups, s.gc.i, PlanFor(snapshots, inv, s.now, days, grace).value, 1, {}, false,
                        s.gc.c, s.now, grace))
    case GcDelete(key, ok, took) =>
      s.(bucket := if took then Remove(b, s.gc.stage, key) else b,
         gc := s.gc.(done := if ok then s.gc.done + {key} else s.gc.done, failed := s.gc.failed || !ok))
    case GcAdvance => s.(gc := s.gc.(stage := s.gc.stage + 1, done := {}))
    case GcStop => s.(gc := Idle, lock := if env.sharedLock then Free else s.lock)
  }

  ghost predicate Runs(env: Env, s: State, steps: seq<Step>)
    decreases |steps|
  {
    steps == [] || (Enabled(env, s, steps[0]) && Runs(env, Apply(env, s, steps[0]), steps[1..]))
  }

  ghost function Exec(env: Env, s: State, steps: seq<Step>): State
    requires Runs(env, s, steps)
    decreases |steps|
  {
    if steps == [] then s else Exec(env, Apply(env, s, steps[0]), steps[1..])
  }

  // --------------------------------------------------------------- properties

  /** Every index, original or copy, references only chunks that exist. */
  ghost predicate Complete(b: Bucket) {
    && (forall k :: k in b.backups ==> AllPresent(b, b.backups[k].Digests()))
    && (forall k :: k in b.indexed ==> AllPresent(b, b.indexed[k].digests))
  }

  ghost predicate HonestFile(env: Env, file: IndexFile) {
    file.checksum == env.sum(file.digests) && file.digests in env.written
  }

  ghost predicate HonestObject(env: Env, key: string, obj: BackupObject) {
    && (obj.Fixed? ==> HasSuffix(key, FIXED_SUFFIX) && HonestFile(env, obj.file))
    && (obj.Dynamic? ==> HasSuffix(key, DYNAMIC_SUFFIX))
  }

  /** Index objects are named after their kind and copies carry the checksum of their payload. */
  ghost predicate HonestBucket(env: Env, b: Bucket) {
    && (forall k :: k in b.backups ==> HonestObject(env, k, b.backups[k]))
    && (forall k :: k in b.indexed ==> HonestFile(env, b.indexed[k]))
  }

  /** Nothing is going on, and the bucket was written by honest clients. */
  ghost predicate Quiet(env: Env, s: State) {
    HonestBucket(env, s.bucket) && s.lock == Free && s.sessions == map[] && s.closes == map[] && s.gc == Idle
  }
}
