/** The size column of the backup list: many short reads by many workers, one sum per snapshot. */
module ArchiveSizes {
  import opened Wrappers
  import opened Sums
  import opened ObjectKeys
  import opened Snapshots
  import opened GcPlan
  import opened GcPlanFacts
  import opened CollectorRun
  import opened ExclusiveBytes
  import opened IndexBytes
  import opened IndexFile
  import U = UsageStats

  /** One short read to make, and the snapshot it counts for. */
  datatype Job = Job(snapshot: nat, key: string)

  /** What the short reads answer; a key without an entry is one that fails. */
  type Lookup = map<string, uint64>

  function KeyIn(s: Snapshot, file: SnapshotFile): string {
    s.S3Prefix() + "/" + file.filename
  }

  /** The archives of the first files of a snapshot. */
  function FileBytes(s: Snapshot, files: seq<SnapshotFile>, lookup: Lookup): nat {
    if files == [] then 0
    else
      var last := files[|files| - 1];
      FileBytes(s, files[..|files| - 1], lookup) +
      (if IsIndex(last.filename) then U.SizeIn(lookup, KeyIn(s, last)) else 0)
  }

  /** What the list should show: every archive of the snapshot whose size can be read. */
  function ArchiveBytes(s: Snapshot, lookup: Lookup): nat {
    FileBytes(s, s.files, lookup)
  }

  function JobBytes(jobs: seq<Job>, i: nat, lookup: Lookup): nat {
    if jobs == [] then 0
    else
      var last := jobs[|jobs| - 1];
      JobBytes(jobs[..|jobs| - 1], i, lookup) + (if last.snapshot == i then U.SizeIn(lookup, last.key) else 0)
  }

  lemma JobBytesOneMore(jobs: seq<Job>, job: Job, i: nat, lookup: Lookup)
    ensures JobBytes(jobs + [job], i, lookup) ==
      JobBytes(jobs, i, lookup) + (if job.snapshot == i then U.SizeIn(lookup, job.key) else 0)
  {
    assert (jobs + [job])[..|jobs|] == jobs;
  }

  /** What the jobs of the first n snapshots, and of k files of the next, come to for snapshot i. */
  function Share(snapshots: seq<Snapshot>, n: nat, k: nat, i: nat, lookup: Lookup): nat
    requires n <= |snapshots| && (n < |snapshots| ==> k <= |snapshots[n].files|)
  {
    if i < n then ArchiveBytes(snapshots[i], lookup)
    else if i == n < |snapshots| then FileBytes(snapshots[n], snapshots[n].files[..k], lookup)
    else 0
  }

  ghost predicate Covers(jobs: seq<Job>, snapshots: seq<Snapshot>, n: nat, k: nat, lookup: Lookup)
    requires n <= |snapshots| && (n < |snapshots| ==> k <= |snapshots[n].files|)
  {
    && (forall j :: 0 <= j < |jobs| ==> jobs[j].snapshot < |snapshots|)
    && (forall i: nat :: JobBytes(jobs, i, lookup) == Share(snapshots, n, k, i, lookup))
  }

  lemma CoversOneMore(jobs: seq<Job>, snapshots: seq<Snapshot>, n: nat, k: nat, lookup: Lookup)
    requires n < |snapshots| && k < |snapshots[n].files| && Covers(jobs, snapshots, n, k, lookup)
    ensures var file := snapshots[n].files[k];
      Covers(if IsIndex(file.filename) then jobs + [Job(n, KeyIn(snapshots[n], file))] else jobs,
             snapshots, n, k + 1, lookup)
  {
    var file := snapshots[n].files[k];
    var job := Job(n, KeyIn(snapshots[n], file));
    var after := if IsIndex(file.filename) then jobs + [job] else jobs;
    assert snapshots[n].files[..k + 1][..k] == snapshots[n].files[..k];
    forall i: nat ensures JobBytes(after, i, lookup) == Share(snapshots, n, k + 1, i, lookup) {
      JobBytesOneMore(jobs, job, i, lookup);
    }
  }

  lemma CoversNext(jobs: seq<Job>, snapshots: seq<Snapshot>, n: nat, lookup: Lookup)
    requires n < |snapshots| && Covers(jobs, snapshots, n, |snapshots[n].files|, lookup)
    ensures Covers(jobs, snapshots, n + 1, 0, lookup)
  {
    assert snapshots[n].files[..|snapshots[n].files|] == snapshots[n].files;
    assert n + 1 < |snapshots| ==> snapshots[n + 1].files[..0] == [];
    forall i: nat ensures JobBytes(jobs, i, lookup) == Share(snapshots, n + 1, 0, i, lookup) {
      assert JobBytes(jobs, i, lookup) == Share(snapshots, n, |snapshots[n].files|, i, lookup);
    }
  }

  method JobsOf(snapshots: seq<Snapshot>, ghost lookup: Lookup) returns (jobs: seq<Job>)
    ensures Covers(jobs, snapshots, |snapshots|, 0, lookup)
  {
    jobs := [];
    assert |snapshots| > 0 ==> snapshots[0].files[..0] == [];
    for n := 0 to |snapshots|
      invariant Covers(jobs, snapshots, n, 0, lookup)
    {
      var s := snapshots[n];
      for k := 0 to |s.files|
        invariant Covers(jobs, snapshots, n, k, lookup)
      {
        CoversOneMore(jobs, snapshots, n, k, lookup);
        if IsIndex(s.files[k].filename) {
          jobs := jobs + [Job(n, KeyIn(s, s.files[k]))];
        }
      }
      CoversNext(jobs, snapshots, n, lookup);
    }
  }

  /**
   * The workers between them finish every job once, in an order nobody knows.
   * A job whose read fails leaves the zero that was there.
   */
  method LookUpAll(jobs: seq<Job>, lookup: Lookup) returns (sizes: array<uint64>)
    ensures fresh(sizes) && sizes.Length == |jobs|
    ensures forall j :: 0 <= j < |jobs| ==> sizes[j] == U.SizeIn(lookup, jobs[j].key)
    ensures forall j :: 0 <= j < |jobs| && jobs[j].key in lookup ==> sizes[j] == lookup[jobs[j].key]
    ensures forall j :: 0 <= j < |jobs| && jobs[j].key !in lookup ==> sizes[j] == 0
  {
    sizes := new uint64[|jobs|](_ => 0);
    var rest: set<nat> := {};
    for n := 0 to |jobs|
      invariant forall j: nat :: j in rest <==> j < n
      invariant forall j :: 0 <= j < |jobs| ==> sizes[j] == 0
    {
      rest := rest + {n};
    }
    while rest != {}
      invariant forall j :: j in rest ==> j < |jobs|
      invariant forall j: nat :: j < |jobs| ==> sizes[j] == if j in rest then 0 else U.SizeIn(lookup, jobs[j].key)
    {
      var idx: nat :| idx in rest;
      rest := rest - {idx};
      if jobs[idx].key in lookup {
        sizes[idx] := lookup[jobs[idx].key];
      }
    }
  }

  lemma JobAdds(jobs: seq<Job>, n: nat, i: nat, lookup: Lookup)
    requires n < |jobs|
    ensures JobBytes(jobs[..n + 1], i, lookup) ==
      JobBytes(jobs[..n], i, lookup) + (if jobs[n].snapshot == i then U.SizeIn(lookup, jobs[n].key) else 0)
  {
    assert jobs[..n + 1] == jobs[..n] + [jobs[n]];
    JobBytesOneMore(jobs[..n], jobs[n], i, lookup);
  }

  ghost predicate SumsSoFar(before: seq<uint64>, size: seq<uint64>, jobs: seq<Job>, lookup: Lookup) {
    |size| == |before| && forall i: nat :: i < |size| ==> size[i] == Wrap64(before[i] + JobBytes(jobs, i, lookup))
  }

  lemma SumsOneMore(before: seq<uint64>, size: seq<uint64>, jobs: seq<Job>, n: nat, lookup: Lookup)
    requires n < |jobs| && jobs[n].snapshot < |size| && SumsSoFar(before, size, jobs[..n], lookup)
    ensures var at := jobs[n].snapshot;
      SumsSoFar(before, size[at := Add64(size[at], U.SizeIn(lookup, jobs[n].key))], jobs[..n + 1], lookup)
  {
    var at := jobs[n].snapshot;
    AddWraps(before[at] + JobBytes(jobs[..n], at, lookup), U.SizeIn(lookup, jobs[n].key));
    var after := size[at := Add64(size[at], U.SizeIn(lookup, jobs[n].key))];
    forall i: nat | i < |after| ensures after[i] == Wrap64(before[i] + JobBytes(jobs[..n + 1], i, lookup)) {
      JobAdds(jobs, n, i, lookup);
    }
  }

  /** Adds to the Size field of each snapshot, in place. Whatever the schedule, the sums are the same. */
  method FillArchiveSizes(snapshots: seq<Snapshot>, size: array<uint64>, lookup: Lookup)
    requires size.Length == |snapshots|
    modifies size
    ensures forall i :: 0 <= i < |snapshots| ==> size[i] == Wrap64(old(size[i]) + ArchiveBytes(snapshots[i], lookup))
  {
    ghost var before := size[..];
    var jobs := JobsOf(snapshots, lookup);
    var sizes := LookUpAll(jobs, lookup);
    for n := 0 to |jobs|
      invariant forall j :: 0 <= j < |jobs| ==> sizes[j] == U.SizeIn(lookup, jobs[j].key)
      invariant SumsSoFar(before, size[..], jobs[..n], lookup)
    {
      var at := jobs[n].snapshot;
      SumsOneMore(before, size[..], jobs, n, lookup);
      size[at] := Add64(size[at], sizes[n]);
    }
    assert jobs[..|jobs|] == jobs;
    forall i: nat | i < |snapshots| ensures size[i] == Wrap64(before[i] + ArchiveBytes(snapshots[i], lookup)) {
      assert size[..][i] == Wrap64(before[i] + JobBytes(jobs, i, lookup));
    }
  }

  // ------------------------------------------------- agreement with the report

  lemma SuffixOfFile(prefix: string, file: string, suffix: string)
    requires |suffix| == 5 && '/' !in suffix && |prefix| >= 5
    ensures HasSuffix(prefix + "/" + file, suffix) <==> HasSuffix(file, suffix)
  {
    var key := prefix + "/" + file;
    var end := key[|key| - 5..];
    if |file| >= 5 {
      assert end == file[|file| - 5..];
    } else {
      assert end[4 - |file|] == key[|prefix|] == '/';
      assert '/' in end;
    }
  }

  lemma IndexByFile(dir: string, file: string)
    ensures IsIndex(BACKUPS + dir + "/" + file) <==> IsIndex(file)
  {
    SuffixOfFile(BACKUPS + dir, file, FIXED_SUFFIX);
    SuffixOfFile(BACKUPS + dir, file, DYNAMIC_SUFFIX);
  }

  lemma KeyOfPath(key: string)
    requires PathOf(key).Some?
    ensures key == BACKUPS + PathOf(key).value.dir + "/" + PathOf(key).value.file
  {
    var rest := key[|BACKUPS|..];
    var slash := IndexByte(rest, '/');
    assert rest == rest[..slash] + "/" + rest[slash + 1..];
  }

  /** The listed indexes of one directory. */
  function IndexKeys(objects: seq<ObjectInfo>, dir: string): set<string> {
    set i | 0 <= i < |objects| && InDir(objects[i], dir) && IsIndex(objects[i].key) :: objects[i].key
  }

  lemma IndexKeysStep(objects: seq<ObjectInfo>, dir: string, n: nat)
    requires |objects| == n + 1
    ensures IndexKeys(objects, dir) == IndexKeys(objects[..n], dir) +
      (if InDir(objects[n], dir) && IsIndex(objects[n].key) then {objects[n].key} else {})
  {
    forall k | k in IndexKeys(objects[..n], dir) ensures k in IndexKeys(objects, dir) {
      var i :| 0 <= i < n && InDir(objects[..n][i], dir) && IsIndex(objects[..n][i].key) && objects[..n][i].key == k;
      assert InDir(objects[i], dir);
    }
    forall k | k in IndexKeys(objects, dir)
      ensures k in IndexKeys(objects[..n], dir) || (k == objects[n].key && InDir(objects[n], dir) && IsIndex(k))
    {
      var i :| 0 <= i < |objects| && InDir(objects[i], dir) && IsIndex(objects[i].key) && objects[i].key == k;
      if i < n {
        assert InDir(objects[..n][i], dir);
      }
    }
  }

  lemma FileBytesOneMore(s: Snapshot, files: seq<SnapshotFile>, file: SnapshotFile, lookup: Lookup)
    ensures FileBytes(s, files + [file], lookup) ==
      FileBytes(s, files, lookup) + (if IsIndex(file.filename) then U.SizeIn(lookup, KeyIn(s, file)) else 0)
  {
    assert (files + [file])[..|files|] == files;
  }

  /** The file a listed object is, if it is one that counts. */
  function AsFile(o: ObjectInfo, dir: string): Option<SnapshotFile> {
    if InDir(o, dir) && !HasSuffix(PathOf(o.key).value.file, ".csjson")
    then Some(SnapshotFile(PathOf(o.key).value.file, o.size)) else None
  }

  lemma FilesStep(objects: seq<ObjectInfo>, dir: string, n: nat)
    requires |objects| == n + 1
    ensures FilesOf(objects, dir) == FilesOf(objects[..n], dir) +
      (if AsFile(objects[n], dir).Some? then [AsFile(objects[n], dir).value] else [])
  {
  }

  /** A side file of chunk sizes is not an index. */
  lemma SideFileIsNoIndex(file: string)
    requires HasSuffix(file, ".csjson")
    ensures !IsIndex(file)
  {
    assert file[|file| - 1] == 'n';
  }

  /** What one listed object is to its snapshot: an index under its own key, or nothing that counts. */
  lemma ObjectAsFile(o: ObjectInfo, dir: string, s: Snapshot)
    requires s.S3Prefix() == BACKUPS + dir
    ensures AsFile(o, dir).Some? ==>
      (IsIndex(o.key) <==> IsIndex(AsFile(o, dir).value.filename)) && KeyIn(s, AsFile(o, dir).value) == o.key &&
        InDir(o, dir)
    ensures AsFile(o, dir).None? ==> !InDir(o, dir) || !IsIndex(o.key)
  {
    if InDir(o, dir) {
      var file := PathOf(o.key).value.file;
      KeyOfPath(o.key);
      IndexByFile(dir, file);
      if HasSuffix(file, ".csjson") {
        SideFileIsNoIndex(file);
      }
    }
  }

  lemma FileCounts(s: Snapshot, files: seq<SnapshotFile>, file: SnapshotFile, key: string, keys: set<string>,
                   lookup: Lookup)
    requires FileBytes(s, files, lookup) == Sum(keys, U.Sizes(lookup))
    requires KeyIn(s, file) == key && key !in keys
    ensures FileBytes(s, files + [file], lookup) ==
      Sum(if IsIndex(file.filename) then keys + {key} else keys, U.Sizes(lookup))
  {
    FileBytesOneMore(s, files, file, lookup);
    if IsIndex(file.filename) {
      SumAdd(keys, U.Sizes(lookup), key);
    }
  }

  lemma NotListedBefore(objects: seq<ObjectInfo>, dir: string, n: nat)
    requires |objects| == n + 1 && ListedOnce(objects)
    ensures objects[n].key !in IndexKeys(objects[..n], dir)
  {
  }

  lemma OneMoreObject(s: Snapshot, o: ObjectInfo, dir: string, files: seq<SnapshotFile>, files': seq<SnapshotFile>,
                      keys: set<string>, keys': set<string>, file: Option<SnapshotFile>, lookup: Lookup)
    requires FileBytes(s, files, lookup) == Sum(keys, U.Sizes(lookup)) && o.key !in keys
    requires files' == files + (if file.Some? then [file.value] else [])
    requires file.Some? ==> KeyIn(s, file.value) == o.key
    requires keys' == if file.Some? && IsIndex(file.value.filename) then keys + {o.key} else keys
    ensures FileBytes(s, files', lookup) == Sum(keys', U.Sizes(lookup))
  {
    if file.Some? {
      FileCounts(s, files, file.value, o.key, keys, lookup);
    } else {
      assert files' == files;
    }
  }

  /** Summing over the files of the grouped snapshot is summing over its listed indexes. */
  lemma {:induction false} FilesAreIndexes(objects: seq<ObjectInfo>, dir: string, s: Snapshot, lookup: Lookup)
    requires ListedOnce(objects) && s.S3Prefix() == BACKUPS + dir
    ensures FileBytes(s, FilesOf(objects, dir), lookup) == Sum(IndexKeys(objects, dir), U.Sizes(lookup))
    decreases |objects|
  {
    if objects == [] {
      assert IndexKeys(objects, dir) == {};
    } else {
      var n := |objects| - 1;
      FilesAreIndexes(objects[..n], dir, s, lookup);
      FilesStep(objects, dir, n);
      IndexKeysAsFile(objects, dir, s, n);
      ObjectAsFile(objects[n], dir, s);
      NotListedBefore(objects, dir, n);
      OneMoreObject(s, objects[n], dir, FilesOf(objects[..n], dir), FilesOf(objects, dir),
                    IndexKeys(objects[..n], dir), IndexKeys(objects, dir), AsFile(objects[n], dir), lookup);
    }
  }

  lemma IndexKeysAsFile(objects: seq<ObjectInfo>, dir: string, s: Snapshot, n: nat)
    requires |objects| == n + 1 && s.S3Prefix() == BACKUPS + dir
    ensures var file := AsFile(objects[n], dir);
      IndexKeys(objects, dir) ==
        (if file.Some? && IsIndex(file.value.filename) then IndexKeys(objects[..n], dir) + {objects[n].key}
         else IndexKeys(objects[..n], dir))
  {
    IndexKeysStep(objects, dir, n);
    ObjectAsFile(objects[n], dir, s);
  }

  lemma ArchiveAdded(s: BackupScan, o: ObjectInfo, expired: set<string>, loaded: map<string, ParsedIndex>, key: string)
    requires ScanBackup(s, o, expired, loaded).Ok?
    ensures var t := ScanBackup(s, o, expired, loaded).value;
      if key == o.key && Retained(key, expired)
      then key in loaded && key in t.archiveSizes && t.archiveSizes[key] == loaded[key].logicalSize
      else (key in t.archiveSizes <==> key in s.archiveSizes) &&
           (key in s.archiveSizes ==> t.archiveSizes[key] == s.archiveSizes[key])
  {
  }

  /** The archives the plan knows are the retained indexes of the listing. */
  lemma {:induction false} ArchivesExactly(backups: seq<ObjectInfo>, expired: set<string>,
                                           loaded: map<string, ParsedIndex>, key: string)
    requires ScanBackups(backups, expired, loaded).Ok?
    ensures key in ScanBackups(backups, expired, loaded).value.archiveSizes <==>
      KeyListed(backups, key) && Retained(key, expired)
    ensures KeyListed(backups, key) && Retained(key, expired) ==>
      key in loaded && ScanBackups(backups, expired, loaded).value.archiveSizes[key] == loaded[key].logicalSize
    decreases |backups|
  {
    if backups != [] {
      var front, last := backups[..|backups| - 1], backups[|backups| - 1];
      assert backups == front + [last];
      ArchivesExactly(front, expired, loaded, key);
      KeyListedStep(front, last, key);
      ArchiveAdded(ScanBackups(front, expired, loaded).value, last, expired, loaded, key);
    }
  }

  lemma ListedInDir(backups: seq<ObjectInfo>, dir: string, key: string)
    requires AllWellFormed(backups)
    ensures key in IndexKeys(backups, dir) <==>
      KeyListed(backups, key) && IsIndex(key) && SnapshotPrefixForObject(key) == Some(BACKUPS + dir)
  {
    if key in IndexKeys(backups, dir) {
      var i :| 0 <= i < |backups| && InDir(backups[i], dir) && IsIndex(backups[i].key) && backups[i].key == key;
      DirIsPrefix(key);
    }
    if KeyListed(backups, key) && IsIndex(key) && SnapshotPrefixForObject(key) == Some(BACKUPS + dir) {
      var i :| 0 <= i < |backups| && backups[i].key == key;
      assert WellFormed(key);
      DirIsPrefix(key);
      SamePrefixTail(BACKUPS, PathOf(key).value.dir, dir);
      assert InDir(backups[i], dir);
    }
  }

  /** The report attributes to a retained snapshot exactly the indexes listed in its directory. */
  lemma ArchivesOfSnapshot(backups: seq<ObjectInfo>, expired: set<string>, loaded: map<string, ParsedIndex>,
                           dir: string)
    requires AllWellFormed(backups) && ScanBackups(backups, expired, loaded).Ok? && BACKUPS + dir !in expired
    ensures var archives := ScanBackups(backups, expired, loaded).value.archiveSizes;
      U.ArchivesOf(BACKUPS + dir, U.HomesOf(archives), archives.Keys) == IndexKeys(backups, dir)
  {
    var archives := ScanBackups(backups, expired, loaded).value.archiveSizes;
    forall key
      ensures key in U.ArchivesOf(BACKUPS + dir, U.HomesOf(archives), archives.Keys) <==> key in IndexKeys(backups, dir)
    {
      ArchivesExactly(backups, expired, loaded, key);
      ListedInDir(backups, dir, key);
      if SnapshotPrefixForObject(key).Some? {
        ReportAndCollectorAgree(key);
      }
    }
  }

  /** What the collector loaded are full parses of the stored files. */
  ghost predicate LoadsFiles(loaded: map<string, ParsedIndex>, files: map<string, seq<byte>>,
                             metadata: map<string, string>, sha: Sha) {
    forall k :: k in loaded ==> k in files && k in metadata && Parsed(k, files[k], metadata[k], sha) == Ok(loaded[k])
  }

  /** What the list looked up are short reads of the same files, of the length the listing says. */
  predicate ReadsShort(lookup: Lookup, files: map<string, seq<byte>>, backups: seq<ObjectInfo>) {
    forall o :: o in backups && o.key in files ==>
      o.size == |files[o.key]| &&
      (ArchiveSize(o.key, files[o.key], o.size).Ok? ==>
        o.key in lookup && lookup[o.key] == ArchiveSize(o.key, files[o.key], o.size).value)
  }

  /** For every archive the plan knows, the short read answered what the full parse did. */
  lemma ShortReadsAgree(inv: Inventory, expired: set<string>, files: map<string, seq<byte>>,
                        metadata: map<string, string>, sha: Sha, lookup: Lookup, k: string)
    requires ScanBackups(inv.backups, expired, inv.loaded).Ok?
    requires LoadsFiles(inv.loaded, files, metadata, sha) && ReadsShort(lookup, files, inv.backups)
    requires k in ScanBackups(inv.backups, expired, inv.loaded).value.archiveSizes
    ensures k in lookup && lookup[k] == ScanBackups(inv.backups, expired, inv.loaded).value.archiveSizes[k]
  {
    ArchivesExactly(inv.backups, expired, inv.loaded, k);
    var i :| 0 <= i < |inv.backups| && inv.backups[i].key == k;
    assert inv.backups[i] in inv.backups;
    FastSizeAgrees(k, files[k], metadata[k], sha);
  }

  lemma SnapshotSizeAgrees(inv: Inventory, expired: set<string>, dir: string, lookup: Lookup)
    requires AllWellFormed(inv.backups) && ListedOnce(inv.backups) && ScanBackups(inv.backups, expired, inv.loaded).Ok?
    requires IdentityOf(dir).Some? && SnapshotOf(inv.backups, dir).S3Prefix() == BACKUPS + dir &&
      BACKUPS + dir !in expired
    requires var archives := ScanBackups(inv.backups, expired, inv.loaded).value.archiveSizes;
      forall k :: k in archives ==> k in lookup && lookup[k] == archives[k]
    ensures var archives := ScanBackups(inv.backups, expired, inv.loaded).value.archiveSizes;
      ArchiveBytes(SnapshotOf(inv.backups, dir), lookup) == U.Logical(BACKUPS + dir, U.HomesOf(archives), archives)
  {
    var archives := ScanBackups(inv.backups, expired, inv.loaded).value.archiveSizes;
    var keys := IndexKeys(inv.backups, dir);
    FilesAreIndexes(inv.backups, dir, SnapshotOf(inv.backups, dir), lookup);
    ArchivesOfSnapshot(inv.backups, expired, inv.loaded, dir);
    forall k | k in keys ensures U.Sizes(lookup)(k) == U.Sizes(archives)(k) {
      assert k in U.ArchivesOf(BACKUPS + dir, U.HomesOf(archives), archives.Keys);
    }
    SumCongruent(keys, U.Sizes(lookup), U.Sizes(archives));
  }

  /**
   * The list and the report agree. Given the stored files, the size the list
   * shows for a snapshot the plan retains, from short reads, is the logical
   * size the collector reports for it, from whole indexes.
   */
  lemma ListAgreesWithReport(inv: Inventory, tags: map<string, bool>, now: int, days: uint64, grace: int, dir: string,
                             files: map<string, seq<byte>>, metadata: map<string, string>, sha: Sha, lookup: Lookup)
    requires Plannable(inv, tags, now, days, grace) && ListedOnce(inv.backups)
    requires dir in Dirs(inv.backups) && IdentityOf(dir).Some? && Canonical(Split(dir, '|')[1])
    requires BACKUPS + dir !in ExpiredPrefixes(Current(inv, tags, now, days), now, days)
    requires LoadsFiles(inv.loaded, files, metadata, sha) && ReadsShort(lookup, files, inv.backups)
    ensures var archives := PlanOf(inv, tags, now, days, grace).archiveSizes;
      ArchiveBytes(SnapshotOf(inv.backups, dir), lookup) == U.Logical(BACKUPS + dir, U.HomesOf(archives), archives)
  {
    var expired := ExpiredPrefixes(Current(inv, tags, now, days), now, days);
    var archives := PlanOf(inv, tags, now, days, grace).archiveSizes;
    PrefixGivesDirBackIffCanonical(inv.backups, dir);
    forall k | k in archives ensures k in lookup && lookup[k] == archives[k] {
      ShortReadsAgree(inv, expired, files, metadata, sha, lookup, k);
    }
    SnapshotSizeAgrees(inv, expired, dir, lookup);
  }
}
