/** Grouping a listing of backups/ into snapshots, and counting them in a full walk. */
module Snapshots {
  import opened Wrappers
  import opened Sums
  import opened ObjectKeys

  /** What a listing says about one object. `protectedTag` is the tag a listing may or may not carry. */
  datatype ObjectInfo = ObjectInfo(key: string, size: uint64, lastModified: int, protectedTag: bool)

  datatype SnapshotFile = SnapshotFile(filename: string, size: uint64)

  datatype Snapshot = Snapshot(
    backupId: string,
    backupTime: uint64,
    backupType: string,
    files: seq<SnapshotFile>,
    isProtected: bool,
    corrupted: bool)
  {
    function S3Prefix(): string {
      BACKUPS + backupId + "|" + FormatUint(backupTime) + "|" + backupType
    }
  }

  /** The two halves of a key under backups/: directory of the snapshot and name of the file. */
  datatype ObjectPath = ObjectPath(dir: string, file: string)

  function PathOf(key: string): Option<ObjectPath> {
    if !HasPrefix(key, BACKUPS) then None
    else
      var rest := key[|BACKUPS|..];
      var slash := IndexByte(rest, '/');
      if slash <= 0 || slash == |rest| - 1 then None
      else Some(ObjectPath(rest[..slash], rest[slash + 1..]))
  }

  datatype Identity = Identity(id: string, time: uint64, kind: string)

  /** `<id>|<time>|<type>` */
  function IdentityOf(dir: string): Option<Identity> {
    var fields := Split(dir, '|');
    if |fields| != 3 || fields[0] == "" || fields[2] == "" then None
    else match ParseUint(fields[1])
      case None => None
      case Some(t) => Some(Identity(fields[0], t, fields[2]))
  }

  /** A listed key the grouping can place; keys elsewhere in the bucket are skipped. */
  predicate WellFormed(key: string) {
    HasPrefix(key, BACKUPS) ==> PathOf(key).Some? && IdentityOf(PathOf(key).value.dir).Some?
  }

  predicate AllWellFormed(objects: seq<ObjectInfo>) {
    forall i :: 0 <= i < |objects| ==> WellFormed(objects[i].key)
  }

  predicate InDir(obj: ObjectInfo, dir: string) {
    PathOf(obj.key).Some? && PathOf(obj.key).value.dir == dir
  }

  // --------------------------------------------- what the grouping has to mean

  /** Directories in order of first appearance. */
  function Dirs(objects: seq<ObjectInfo>): seq<string> {
    if objects == [] then []
    else
      var front, last := objects[..|objects| - 1], objects[|objects| - 1];
      var path := PathOf(last.key);
      if path.None? || path.value.dir in Dirs(front) then Dirs(front) else Dirs(front) + [path.value.dir]
  }

  /** The files of one directory, in listing order, chunk-size side files left out. */
  function FilesOf(objects: seq<ObjectInfo>, dir: string): seq<SnapshotFile> {
    if objects == [] then []
    else
      var front, last := objects[..|objects| - 1], objects[|objects| - 1];
      if InDir(last, dir) && !HasSuffix(PathOf(last.key).value.file, ".csjson")
      then FilesOf(front, dir) + [SnapshotFile(PathOf(last.key).value.file, last.size)]
      else FilesOf(front, dir)
  }

  predicate TaggedProtected(objects: seq<ObjectInfo>, dir: string) {
    objects != [] &&
    (TaggedProtected(objects[..|objects| - 1], dir) ||
     (InDir(objects[|objects| - 1], dir) && objects[|objects| - 1].protectedTag))
  }

  predicate MarkedCorrupted(objects: seq<ObjectInfo>, dir: string) {
    objects != [] &&
    (MarkedCorrupted(objects[..|objects| - 1], dir) ||
     (InDir(objects[|objects| - 1], dir) && PathOf(objects[|objects| - 1].key).value.file == "corrupted"))
  }

  function SnapshotOf(objects: seq<ObjectInfo>, dir: string): Snapshot
    requires IdentityOf(dir).Some?
  {
    var who := IdentityOf(dir).value;
    Snapshot(who.id, who.time, who.kind, FilesOf(objects, dir),
             TaggedProtected(objects, dir), MarkedCorrupted(objects, dir))
  }

  function Kept(objects: seq<ObjectInfo>, dirs: seq<string>, returnCorrupted: bool): seq<Snapshot>
    requires forall i :: 0 <= i < |dirs| ==> IdentityOf(dirs[i]).Some?
  {
    if dirs == [] then []
    else
      var front, snapshot := dirs[..|dirs| - 1], SnapshotOf(objects, dirs[|dirs| - 1]);
      Kept(objects, front, returnCorrupted) +
      (if returnCorrupted || !snapshot.corrupted then [snapshot] else [])
  }

  lemma {:induction false} DirsAreKnown(objects: seq<ObjectInfo>)
    ensures forall d :: d in Dirs(objects) <==> exists i :: 0 <= i < |objects| && InDir(objects[i], d)
    ensures forall i, j :: 0 <= i < j < |Dirs(objects)| ==> Dirs(objects)[i] != Dirs(objects)[j]
  {
    if objects != [] {
      var n := |objects| - 1;
      var front, last := objects[..n], objects[n];
      DirsAreKnown(front);
      forall d ensures d in Dirs(objects) <==> exists i :: 0 <= i < |objects| && InDir(objects[i], d) {
        if d in Dirs(front) {
          var i :| 0 <= i < n && InDir(front[i], d);
          assert InDir(objects[i], d);
        }
        if i :| 0 <= i < |objects| && InDir(objects[i], d) {
          assert i < n ==> InDir(front[i], d);
        }
      }
    }
  }

  lemma DirsParse(objects: seq<ObjectInfo>)
    requires AllWellFormed(objects)
    ensures forall i :: 0 <= i < |Dirs(objects)| ==> IdentityOf(Dirs(objects)[i]).Some?
  {
    DirsAreKnown(objects);
    forall i | 0 <= i < |Dirs(objects)| ensures IdentityOf(Dirs(objects)[i]).Some? {
      assert Dirs(objects)[i] in Dirs(objects);
      var j :| 0 <= j < |objects| && InDir(objects[j], Dirs(objects)[i]);
      assert WellFormed(objects[j].key);
    }
  }

  /** What one object adds to the snapshot it belongs to. */
  function Absorb(snapshot: Snapshot, file: string, obj: ObjectInfo): Snapshot {
    snapshot.(
      corrupted := snapshot.corrupted || file == "corrupted",
      isProtected := snapshot.isProtected || obj.protectedTag,
      files := if HasSuffix(file, ".csjson") then snapshot.files else snapshot.files + [SnapshotFile(file, obj.size)])
  }

  /** One more object changes the directory it belongs to, and no other. */
  lemma SnapshotStep(front: seq<ObjectInfo>, last: ObjectInfo, dir: string)
    requires IdentityOf(dir).Some?
    ensures SnapshotOf(front + [last], dir) ==
      if InDir(last, dir) then Absorb(SnapshotOf(front, dir), PathOf(last.key).value.file, last)
      else SnapshotOf(front, dir)
  {
    var objects := front + [last];
    assert objects[..|objects| - 1] == front;
    assert objects[|objects| - 1] == last;
  }

  function Blank(dir: string): Snapshot
    requires IdentityOf(dir).Some?
  {
    var who := IdentityOf(dir).value;
    Snapshot(who.id, who.time, who.kind, [], false, false)
  }

  lemma {:induction false} EmptySnapshot(objects: seq<ObjectInfo>, dir: string)
    requires IdentityOf(dir).Some? && dir !in Dirs(objects)
    ensures SnapshotOf(objects, dir) == Blank(dir)
    decreases |objects|
  {
    if objects != [] {
      var front, last := objects[..|objects| - 1], objects[|objects| - 1];
      assert objects == front + [last];
      EmptySnapshot(front, dir);
      SnapshotStep(front, last, dir);
    }
  }

  /** The accumulators after the objects seen so far. */
  ghost predicate Grouped(objects: seq<ObjectInfo>, byPrefix: map<string, Snapshot>, order: seq<string>) {
    && order == Dirs(objects)
    && (forall d :: d in byPrefix <==> d in order)
    && (forall d :: d in order ==> IdentityOf(d).Some? && byPrefix[d] == SnapshotOf(objects, d))
  }

  lemma GroupSkip(front: seq<ObjectInfo>, last: ObjectInfo, byPrefix: map<string, Snapshot>, order: seq<string>)
    requires Grouped(front, byPrefix, order) && PathOf(last.key).None?
    ensures Grouped(front + [last], byPrefix, order)
  {
    assert (front + [last])[..|front|] == front;
    forall d | d in order ensures byPrefix[d] == SnapshotOf(front + [last], d) {
      SnapshotStep(front, last, d);
    }
  }

  lemma GroupStep(front: seq<ObjectInfo>, last: ObjectInfo, dir: string,
                  byPrefix: map<string, Snapshot>, order: seq<string>)
    requires Grouped(front, byPrefix, order) && InDir(last, dir) && IdentityOf(dir).Some?
    ensures var before := if dir in byPrefix then byPrefix[dir] else Blank(dir);
      Grouped(front + [last],
              byPrefix[dir := Absorb(before, PathOf(last.key).value.file, last)],
              if dir in byPrefix then order else order + [dir])
  {
    var objects := front + [last];
    assert objects[..|front|] == front;
    if dir !in byPrefix {
      EmptySnapshot(front, dir);
    }
    SnapshotStep(front, last, dir);
    forall d | d in order && d != dir ensures byPrefix[d] == SnapshotOf(objects, d) {
      SnapshotStep(front, last, d);
    }
  }

  method GroupByPrefix(objects: seq<ObjectInfo>)
    returns (ok: bool, byPrefix: map<string, Snapshot>, order: seq<string>)
    ensures ok <==> AllWellFormed(objects)
    ensures ok ==> Grouped(objects, byPrefix, order)
  {
    byPrefix, order := map[], [];
    for n := 0 to |objects|
      invariant AllWellFormed(objects[..n])
      invariant Grouped(objects[..n], byPrefix, order)
    {
      var obj := objects[n];
      assert objects[..n + 1] == objects[..n] + [obj];
      var path := PathOf(obj.key);
      if !HasPrefix(obj.key, BACKUPS) {
        GroupSkip(objects[..n], obj, byPrefix, order);
        continue;
      }
      if path.None? || IdentityOf(path.value.dir).None? {
        assert !WellFormed(objects[n].key);
        return false, byPrefix, order;
      }
      var dir, file := path.value.dir, path.value.file;
      GroupStep(objects[..n], obj, dir, byPrefix, order);
      var snapshot := Blank(dir);
      if dir in byPrefix {
        snapshot := byPrefix[dir];
      } else {
        order := order + [dir];
      }
      if file == "corrupted" {
        snapshot := snapshot.(corrupted := true);
      }
      if obj.protectedTag {
        snapshot := snapshot.(isProtected := true);
      }
      if !HasSuffix(file, ".csjson") {
        snapshot := snapshot.(files := snapshot.files + [SnapshotFile(file, obj.size)]);
      }
      byPrefix := byPrefix[dir := snapshot];
    }
    assert objects[..|objects|] == objects;
    ok := true;
  }

  method SnapshotsFromObjects(objects: seq<ObjectInfo>, returnCorrupted: bool)
    returns (result: Option<seq<Snapshot>>)
    ensures result.Some? <==> AllWellFormed(objects)
    ensures result.Some? ==>
      (forall i :: 0 <= i < |Dirs(objects)| ==> IdentityOf(Dirs(objects)[i]).Some?) &&
      result.value == Kept(objects, Dirs(objects), returnCorrupted)
  {
    var ok, byPrefix, order := GroupByPrefix(objects);
    if !ok {
      return None;
    }
    DirsParse(objects);
    var kept: seq<Snapshot> := [];
    for n := 0 to |order|
      invariant kept == Kept(objects, order[..n], returnCorrupted)
    {
      assert order[..n + 1][..n] == order[..n];
      assert order[n] in order;
      var snapshot := byPrefix[order[n]];
      if returnCorrupted || !snapshot.corrupted {
        kept := kept + [snapshot];
      }
    }
    assert order[..|order|] == order;
    return Some(kept);
  }

  // ------------------------------------------------------------- consequences

  /** A complete listing, grouped with corrupted snapshots included: one snapshot per directory. */
  lemma {:induction false} OneSnapshotPerDir(objects: seq<ObjectInfo>, dirs: seq<string>)
    requires forall i :: 0 <= i < |dirs| ==> IdentityOf(dirs[i]).Some?
    ensures |Kept(objects, dirs, true)| == |dirs|
    ensures forall i :: 0 <= i < |dirs| ==> Kept(objects, dirs, true)[i] == SnapshotOf(objects, dirs[i])
  {
    if dirs != [] {
      var n := |dirs| - 1;
      OneSnapshotPerDir(objects, dirs[..n]);
      var kept, before := Kept(objects, dirs, true), Kept(objects, dirs[..n], true);
      assert kept == before + [SnapshotOf(objects, dirs[n])];
      forall i | 0 <= i < |dirs| ensures kept[i] == SnapshotOf(objects, dirs[i]) {
        if i < n {
          assert kept[i] == before[i] && dirs[..n][i] == dirs[i];
        }
      }
    }
  }

  function Bars(a: string, b: string, c: string): string {
    a + ['|'] + (b + ['|'] + c)
  }

  lemma SplitBars(a: string, b: string, c: string)
    requires '|' !in a && '|' !in b && '|' !in c
    ensures Split(Bars(a, b, c), '|') == [a, b, c]
  {
    SplitHead(a, '|', b + ['|'] + c);
    SplitHead(b, '|', c);
    SplitLast(c, '|');
  }

  lemma JoinBars(a: string, b: string, c: string)
    ensures Join([a, b, c], '|') == Bars(a, b, c)
  {
    assert [a, b, c][1..] == [b, c];
    assert [b, c][1..] == [c];
    assert Join([b, c], '|') == b + ['|'] + c;
  }

  lemma DirIsBars(dir: string)
    requires IdentityOf(dir).Some?
    ensures var fields := Split(dir, '|'); dir == Bars(fields[0], fields[1], fields[2])
    ensures var fields := Split(dir, '|'); '|' !in fields[0] && '|' !in fields[1] && '|' !in fields[2]
  {
    var fields := Split(dir, '|');
    JoinSplit(dir, '|');
    JoinBars(fields[0], fields[1], fields[2]);
    assert fields == [fields[0], fields[1], fields[2]];
  }

  lemma PrefixIsBars(s: Snapshot)
    ensures s.S3Prefix() == BACKUPS + Bars(s.backupId, FormatUint(s.backupTime), s.backupType)
  {
    var id, time, kind := s.backupId, FormatUint(s.backupTime), s.backupType;
    assert "|" == ['|'];
    assert BACKUPS + id + ['|'] + time + ['|'] + kind == BACKUPS + (id + ['|'] + (time + ['|'] + kind));
  }

  lemma SamePrefixTail(p: string, a: string, b: string)
    requires p + a == p + b
    ensures a == b
  {
    assert (p + a)[|p|..] == a && (p + b)[|p|..] == b;
  }

  /**
   * A snapshot's own prefix names the directory it was read from exactly when
   * the timestamp in the key is a canonical decimal.
   */
  lemma PrefixGivesDirBackIffCanonical(objects: seq<ObjectInfo>, dir: string)
    requires IdentityOf(dir).Some?
    ensures SnapshotOf(objects, dir).S3Prefix() == BACKUPS + dir <==> Canonical(Split(dir, '|')[1])
  {
    var fields := Split(dir, '|');
    var snapshot := SnapshotOf(objects, dir);
    var printed := FormatUint(snapshot.backupTime);
    PrefixIsBars(snapshot);
    DirIsBars(dir);
    ReprintIffCanonical(fields[1]);
    FormatIsCanonical(snapshot.backupTime);
    if snapshot.S3Prefix() == BACKUPS + dir {
      SamePrefixTail(BACKUPS, Bars(fields[0], printed, fields[2]), dir);
      SplitBars(fields[0], printed, fields[2]);
      assert printed == fields[1];
    }
  }

  // -------------------------------------------------------------- full walk

  /** The directory a walk of the bucket counts for a key. */
  function WalkedDir(key: string): Option<string> {
    if Under(key, BACKUPS) && IndexByte(key[8..], '/') >= 0
    then Some(key[8..][..IndexByte(key[8..], '/')]) else None
  }

  function WalkedDirs(objects: seq<ObjectInfo>): set<string> {
    set i | 0 <= i < |objects| && WalkedDir(objects[i].key).Some? :: WalkedDir(objects[i].key).value
  }

  lemma WalkStep(front: seq<ObjectInfo>, last: ObjectInfo)
    ensures WalkedDirs(front + [last]) == WalkedDirs(front) +
      (if WalkedDir(last.key).Some? then {WalkedDir(last.key).value} else {})
  {
    var objects := front + [last];
    assert forall i :: 0 <= i < |front| ==> objects[i] == front[i];
    assert objects[|front|] == last;
    forall d | d in WalkedDirs(front) ensures d in WalkedDirs(objects) {
      var i :| 0 <= i < |front| && WalkedDir(front[i].key) == Some(d);
      assert WalkedDir(objects[i].key) == Some(d);
    }
  }

  predicate Under(key: string, prefix: string) {
    |key| > |prefix| && key[..|prefix|] == prefix
  }

  function TotalBytes(objects: seq<ObjectInfo>, prefix: string): nat {
    if objects == [] then 0
    else
      var last := objects[|objects| - 1];
      TotalBytes(objects[..|objects| - 1], prefix) + (if Under(last.key, prefix) then last.size else 0)
  }

  datatype DataStoreUsage = DataStoreUsage(bytes: uint64, chunkBytes: uint64, objects: uint64, snapshots: uint64)

  method FirstSlash(rest: string) returns (i: nat)
    ensures i <= |rest|
    ensures if i < |rest| then IndexByte(rest, '/') == i else IndexByte(rest, '/') < 0
  {
    i := 0;
    while i < |rest| && rest[i] != '/'
      invariant i <= |rest| && '/' !in rest[..i]
    {
      i := i + 1;
    }
    if i < |rest| {
      FirstIndex(rest[..i], '/', rest[i + 1..]);
      assert rest == rest[..i] + ['/'] + rest[i + 1..];
    } else {
      assert rest[..i] == rest;
    }
  }

  /** The directory of one object of the walk, if it lies in one. */
  method WalkedDirOf(key: string) returns (dirs: set<string>)
    ensures dirs == if WalkedDir(key).Some? then {WalkedDir(key).value} else {}
  {
    if !Under(key, BACKUPS) {
      return {};
    }
    var rest := key[8..];
    var i := FirstSlash(rest);
    return if i < |rest| then {rest[..i]} else {};
  }

  lemma ChunksAreElsewhere(key: string)
    requires Under(key, "chunks/")
    ensures WalkedDir(key).None?
  {
    assert key[0] == 'c' != BACKUPS[0];
  }

  /** The counters of the walk after the objects seen so far. */
  ghost predicate Walked(objects: seq<ObjectInfo>, bytes: uint64, chunkBytes: uint64, count: uint64,
                         dirs: set<string>)
  {
    && count == Wrap64(|objects|) && bytes == Wrap64(TotalBytes(objects, ""))
    && chunkBytes == Wrap64(TotalBytes(objects, "chunks/")) && dirs == WalkedDirs(objects)
  }

  lemma BytesStep(objects: seq<ObjectInfo>, n: nat, prefix: string)
    requires n < |objects|
    ensures Wrap64(TotalBytes(objects[..n + 1], prefix)) ==
      (if Under(objects[n].key, prefix) then Add64(Wrap64(TotalBytes(objects[..n], prefix)), objects[n].size)
       else Wrap64(TotalBytes(objects[..n], prefix)))
  {
    assert objects[..n + 1][..n] == objects[..n];
    AddWraps(TotalBytes(objects[..n], prefix), objects[n].size);
  }

  method WalkDataStoreUsage(objects: seq<ObjectInfo>) returns (usage: DataStoreUsage)
    requires forall i :: 0 <= i < |objects| ==> objects[i].key != ""
    ensures usage.objects == Wrap64(|objects|)
    ensures usage.bytes == Wrap64(TotalBytes(objects, ""))
    ensures usage.chunkBytes == Wrap64(TotalBytes(objects, "chunks/"))
    ensures usage.snapshots == Wrap64(|WalkedDirs(objects)|)
  {
    var bytes: uint64, chunkBytes: uint64, count: uint64 := 0, 0, 0;
    var snapshotPrefixes: set<string> := {};
    for n := 0 to |objects|
      invariant Walked(objects[..n], bytes, chunkBytes, count, snapshotPrefixes)
    {
      BytesStep(objects, n, "");
      BytesStep(objects, n, "chunks/");
      AddWraps(n, 1);
      WalkStep(objects[..n], objects[n]);
      assert objects[..n + 1] == objects[..n] + [objects[n]];
      count := Add64(count, 1);
      bytes := Add64(bytes, objects[n].size);
      if Under(objects[n].key, "chunks/") {
        ChunksAreElsewhere(objects[n].key);
        chunkBytes := Add64(chunkBytes, objects[n].size);
      } else {
        var dirs := WalkedDirOf(objects[n].key);
        snapshotPrefixes := snapshotPrefixes + dirs;
      }
    }
    assert objects[..|objects|] == objects;
    usage := DataStoreUsage(bytes, chunkBytes, count, |snapshotPrefixes| % TWO_64);
  }

  lemma {:induction false} DistinctCount(dirs: seq<string>)
    requires forall i, j :: 0 <= i < j < |dirs| ==> dirs[i] != dirs[j]
    ensures |set d | d in dirs| == |dirs|
  {
    if dirs != [] {
      var n := |dirs| - 1;
      DistinctCount(dirs[..n]);
      assert (set d | d in dirs) == (set d | d in dirs[..n]) + {dirs[n]};
    }
  }

  lemma SameDir(key: string)
    requires WellFormed(key)
    ensures WalkedDir(key) == if PathOf(key).Some? then Some(PathOf(key).value.dir) else None
  {
  }

  lemma WalkedDirsAreDirs(objects: seq<ObjectInfo>)
    requires AllWellFormed(objects)
    ensures WalkedDirs(objects) == set d | d in Dirs(objects)
  {
    DirsAreKnown(objects);
    forall i | 0 <= i < |objects|
      ensures WalkedDir(objects[i].key).Some? <==> PathOf(objects[i].key).Some?
      ensures PathOf(objects[i].key).Some? ==> InDir(objects[i], WalkedDir(objects[i].key).value)
    {
      SameDir(objects[i].key);
    }
  }

  /** On a listing the grouping accepts, the walk counts as many snapshots as the grouping returns. */
  lemma WalkCountsTheSnapshots(objects: seq<ObjectInfo>)
    requires AllWellFormed(objects)
    ensures forall i :: 0 <= i < |Dirs(objects)| ==> IdentityOf(Dirs(objects)[i]).Some?
    ensures |WalkedDirs(objects)| == |Kept(objects, Dirs(objects), true)|
  {
    DirsParse(objects);
    DirsAreKnown(objects);
    OneSnapshotPerDir(objects, Dirs(objects));
    DistinctCount(Dirs(objects));
    WalkedDirsAreDirs(objects);
  }
}
