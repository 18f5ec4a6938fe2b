/** What the report calls exclusive is what deleting the snapshot lets the collector free. */
module ExclusiveBytes {
  import opened Wrappers
  import opened Sums
  import opened ObjectKeys
  import opened Snapshots
  import opened Retention
  import opened GcPlan
  import opened GcPlanFacts
  import opened CollectorRun
  import U = UsageStats

  // ----------------------------------------------------- deleting a snapshot

  /** The keys Snapshot.Delete lists and removes: everything below the prefix and a slash. */
  function KeysBelow(backups: seq<ObjectInfo>, prefix: string): set<string> {
    set o | o in backups && HasPrefix(o.key, prefix + "/") :: o.key
  }

  function Deleted(inv: Inventory, prefix: string): Inventory {
    inv.(backups := Without(inv.backups, KeysBelow(inv.backups, prefix)))
  }

  /** A prefix some object of the listing is attributed to. */
  ghost predicate IsPrefix(prefix: string) {
    exists dir :: dir != "" && '/' !in dir && prefix == BACKUPS + dir
  }

  lemma BelowBelongs(key: string, dir: string)
    requires dir != "" && '/' !in dir && HasPrefix(key, BACKUPS + dir + "/")
    ensures SnapshotPrefixForObject(key) == Some(BACKUPS + dir)
  {
    var rest, tail := key[|BACKUPS|..], key[|BACKUPS| + |dir| + 1..];
    assert key == BACKUPS + dir + "/" + tail;
    assert rest == dir + ['/'] + tail;
    FirstIndex(dir, '/', tail);
    assert rest[..|dir|] == dir;
  }

  lemma BelongsBelow(key: string, prefix: string)
    requires SnapshotPrefixForObject(key) == Some(prefix)
    ensures HasPrefix(key, prefix + "/")
  {
    var rest := key[|BACKUPS|..];
    var slash := IndexByte(rest, '/');
    assert key == BACKUPS + rest[..slash] + "/" + rest[slash + 1..];
  }

  /** The slash makes the boundary exact: no other snapshot shares it. */
  lemma BelowIsBelonging(key: string, prefix: string)
    requires IsPrefix(prefix)
    ensures HasPrefix(key, prefix + "/") <==> SnapshotPrefixForObject(key) == Some(prefix)
  {
    var dir :| dir != "" && '/' !in dir && prefix == BACKUPS + dir;
    if HasPrefix(key, prefix + "/") {
      BelowBelongs(key, dir);
    }
    if SnapshotPrefixForObject(key) == Some(prefix) {
      BelongsBelow(key, prefix);
    }
  }

  lemma DeletedScanIsOk(inv: Inventory, expired: set<string>, prefix: string)
    requires ScanBackups(inv.backups, expired, inv.loaded).Ok?
    ensures ScanBackups(Deleted(inv, prefix).backups, expired, inv.loaded).Ok?
  {
    var rest := Deleted(inv, prefix).backups;
    forall o | o in rest
      ensures SnapshotPrefixForObject(o.key).Some? && (Retained(o.key, expired) ==> o.key in inv.loaded)
    {
      WithoutExactly(inv.backups, KeysBelow(inv.backups, prefix), o);
      ScheduledExactly(inv.backups, expired, inv.loaded, o);
    }
    ScanIsOk(rest, expired, inv.loaded);
  }

  lemma {:induction false} IndexedIsOk(indexed: seq<ObjectInfo>, hashes: set<string>, others: set<string>,
                                       checksums: map<string, string>)
    requires ScanIndexed(indexed, hashes, checksums).Ok?
    ensures ScanIndexed(indexed, others, checksums).Ok?
    decreases |indexed|
  {
    if indexed != [] {
      IndexedIsOk(indexed[..|indexed| - 1], hashes, others, checksums);
    }
  }

  // ---------------------------------------------------- what stays referenced

  /** Deleting a snapshot takes its own objects off the listing and nobody else's. */
  lemma ListedAfter(backups: seq<ObjectInfo>, prefix: string, key: string)
    requires IsPrefix(prefix)
    ensures KeyListed(Without(backups, KeysBelow(backups, prefix)), key) <==>
      KeyListed(backups, key) && SnapshotPrefixForObject(key) != Some(prefix)
  {
    var keys := KeysBelow(backups, prefix);
    var rest := Without(backups, keys);
    BelowIsBelonging(key, prefix);
    if KeyListed(rest, key) {
      var i :| 0 <= i < |rest| && rest[i].key == key;
      WithoutExactly(backups, keys, rest[i]);
      var j :| 0 <= j < |backups| && backups[j] == rest[i];
    }
    if KeyListed(backups, key) && SnapshotPrefixForObject(key) != Some(prefix) {
      var j :| 0 <= j < |backups| && backups[j].key == key;
      WithoutExactly(backups, keys, backups[j]);
      var i :| 0 <= i < |rest| && rest[i] == backups[j];
    }
  }

  /** So it takes away its own references and nobody else's. */
  lemma ReferencesAfter(inv: Inventory, expired: set<string>, prefix: string, key: string, d: string)
    requires IsPrefix(prefix)
    ensures References(Deleted(inv, prefix), expired, key, d) <==>
      References(inv, expired, key, d) && SnapshotPrefixForObject(key) != Some(prefix)
  {
    ListedAfter(inv.backups, prefix, key);
  }

  /** Owners in the report are the snapshots whose retained indexes reference the chunk. */
  lemma OwnersAreReferrers(inv: Inventory, expired: set<string>, d: string, name: string)
    requires ScanBackups(inv.backups, expired, inv.loaded).Ok?
    requires d in ScanBackups(inv.backups, expired, inv.loaded).value.known
    ensures name in U.Owners(ScanBackups(inv.backups, expired, inv.loaded).value.known[d]) <==>
      exists key :: References(inv, expired, key, d) && SnapshotPrefixForObject(key) == Some(name)
  {
    var known := ScanBackups(inv.backups, expired, inv.loaded).value.known;
    U.OwnersExactly(known[d], name);
    assert inv.(backups := inv.backups) == inv;
    forall key ensures Refers(known, key, d) <==> References(inv, expired, key, d) {
      KnownExactly(inv, inv.backups, expired, key, d);
    }
    if k :| k in known[d] && SnapshotOfIndex(k) == name {
      assert Refers(known, k, d);
      ReportAndCollectorAgree(k);
    }
    if key :| References(inv, expired, key, d) && SnapshotPrefixForObject(key) == Some(name) {
      assert Refers(known, key, d);
      ReportAndCollectorAgree(key);
    }
  }

  lemma KnownIffReferenced(inv: Inventory, expired: set<string>, d: string)
    requires ScanBackups(inv.backups, expired, inv.loaded).Ok?
    ensures d in ScanBackups(inv.backups, expired, inv.loaded).value.known <==>
      exists key :: References(inv, expired, key, d)
  {
    var known := ScanBackups(inv.backups, expired, inv.loaded).value.known;
    assert inv.(backups := inv.backups) == inv;
    if d in known {
      KnownHasReference(inv, inv.backups, expired, d);
    }
    if key :| References(inv, expired, key, d) {
      KnownExactly(inv, inv.backups, expired, key, d);
    }
  }

  /** A chunk stays referenced exactly when some other snapshot owns it too. */
  lemma StaysIffShared(inv: Inventory, expired: set<string>, prefix: string, d: string)
    requires IsPrefix(prefix)
    requires ScanBackups(inv.backups, expired, inv.loaded).Ok? &&
      ScanBackups(Deleted(inv, prefix).backups, expired, inv.loaded).Ok?
    requires d in ScanBackups(inv.backups, expired, inv.loaded).value.known
    ensures d in ScanBackups(Deleted(inv, prefix).backups, expired, inv.loaded).value.known <==>
      exists name :: name in U.Owners(ScanBackups(inv.backups, expired, inv.loaded).value.known[d]) && name != prefix
  {
    var after := Deleted(inv, prefix);
    var owners := U.Owners(ScanBackups(inv.backups, expired, inv.loaded).value.known[d]);
    KnownIffReferenced(after, expired, d);
    if key :| References(after, expired, key, d) {
      ReferencesAfter(inv, expired, prefix, key, d);
      OwnersAreReferrers(inv, expired, d, SnapshotPrefixForObject(key).value);
      assert SnapshotPrefixForObject(key).value in owners;
    }
    if name :| name in owners && name != prefix {
      OwnersAreReferrers(inv, expired, d, name);
      var key :| References(inv, expired, key, d) && SnapshotPrefixForObject(key) == Some(name);
      ReferencesAfter(inv, expired, prefix, key, d);
    }
  }

  lemma KnownHasOwner(inv: Inventory, expired: set<string>, d: string)
    requires ScanBackups(inv.backups, expired, inv.loaded).Ok?
    requires d in ScanBackups(inv.backups, expired, inv.loaded).value.known
    ensures U.Owners(ScanBackups(inv.backups, expired, inv.loaded).value.known[d]) != {}
  {
    KnownIffReferenced(inv, expired, d);
    var key :| References(inv, expired, key, d);
    OwnersAreReferrers(inv, expired, d, SnapshotPrefixForObject(key).value);
  }

  lemma NothingNewIsKnown(inv: Inventory, expired: set<string>, prefix: string, d: string)
    requires IsPrefix(prefix)
    requires ScanBackups(inv.backups, expired, inv.loaded).Ok? &&
      ScanBackups(Deleted(inv, prefix).backups, expired, inv.loaded).Ok?
    requires d in ScanBackups(Deleted(inv, prefix).backups, expired, inv.loaded).value.known
    ensures d in ScanBackups(inv.backups, expired, inv.loaded).value.known
  {
    KnownIffReferenced(Deleted(inv, prefix), expired, d);
    var key :| References(Deleted(inv, prefix), expired, key, d);
    ReferencesAfter(inv, expired, prefix, key, d);
    KnownIffReferenced(inv, expired, d);
  }

  lemma OnlyMember(s: set<string>, x: string)
    requires s != {} && !exists y :: y in s && y != x
    ensures s == {x}
  {
    var y :| y in s;
  }

  /** A chunk stops being referenced exactly when the deleted snapshot was its only owner. */
  lemma ForgottenIffExclusive(inv: Inventory, expired: set<string>, prefix: string, d: string)
    requires IsPrefix(prefix)
    requires ScanBackups(inv.backups, expired, inv.loaded).Ok? &&
      ScanBackups(Deleted(inv, prefix).backups, expired, inv.loaded).Ok?
    ensures var known, left := ScanBackups(inv.backups, expired, inv.loaded).value.known,
                               ScanBackups(Deleted(inv, prefix).backups, expired, inv.loaded).value.known;
      && (d in left ==> d in known)
      && (d in known && d !in left <==> d in known && U.Owners(known[d]) == {prefix})
  {
    var known, left := ScanBackups(inv.backups, expired, inv.loaded).value.known,
                       ScanBackups(Deleted(inv, prefix).backups, expired, inv.loaded).value.known;
    if d in left {
      NothingNewIsKnown(inv, expired, prefix, d);
    }
    if d in known {
      StaysIffShared(inv, expired, prefix, d);
      KnownHasOwner(inv, expired, d);
      if d !in left {
        OnlyMember(U.Owners(known[d]), prefix);
      }
    }
  }

  // ------------------------------------------------------------ counting bytes

  /** A listing names every key once. */
  predicate ListedOnce(objects: seq<ObjectInfo>) {
    forall i, j :: 0 <= i < j < |objects| ==> objects[i].key != objects[j].key
  }

  /** Bytes of the objects that carry one of the given digests. */
  function BytesOf(objects: seq<ObjectInfo>, digests: set<string>): nat {
    if objects == [] then 0
    else
      var last := objects[|objects| - 1];
      BytesOf(objects[..|objects| - 1], digests) +
      (if ChunkDigestFromKey(last.key).Some? && ChunkDigestFromKey(last.key).value in digests then last.size else 0)
  }

  lemma BytesOfOneMore(objects: seq<ObjectInfo>, o: ObjectInfo, digests: set<string>)
    ensures BytesOf(objects + [o], digests) == BytesOf(objects, digests) +
      (if ChunkDigestFromKey(o.key).Some? && ChunkDigestFromKey(o.key).value in digests then o.size else 0)
  {
    assert (objects + [o])[..|objects|] == objects;
  }

  lemma SizeNotSeen(chunks: seq<ObjectInfo>, known: set<string>, now: int, grace: int, d: string)
    requires |chunks| > 0 && ListedOnce(chunks) && Backs(chunks[|chunks| - 1], d)
    requires ScanChunks(chunks[..|chunks| - 1], known, now, grace).Ok?
    ensures d !in ScanChunks(chunks[..|chunks| - 1], known, now, grace).value.sizes
  {
    var n := |chunks| - 1;
    ExistingExactly(chunks[..n], known, now, grace, d);
    if i :| 0 <= i < n && Backs(chunks[..n][i], d) {
      ChunkKeysRoundTrip(d, chunks[i].key);
      ChunkKeysRoundTrip(d, chunks[n].key);
    }
  }

  /** Setting one size adds it to the sum of the digests it belongs to. */
  lemma SumOneSize(digests: set<string>, sizes: map<string, uint64>, d: string, size: uint64)
    requires d !in sizes
    ensures U.SizeIn(sizes[d := size], d) == size
    ensures Sum(digests, U.Sizes(sizes[d := size])) == Sum(digests, U.Sizes(sizes)) + (if d in digests then size else 0)
  {
    var f, g := U.Sizes(sizes[d := size]), U.Sizes(sizes);
    if d in digests {
      SumRemove(digests, f, d);
      SumRemove(digests, g, d);
      SumCongruent(digests - {d}, f, g);
    } else {
      SumCongruent(digests, f, g);
    }
  }

  /** One more chunk: what it adds to the scheduled bytes it adds to the sum. */
  lemma ForgottenStep(orphans: seq<ObjectInfo>, last: ObjectInfo, d: string, known: set<string>, left: set<string>,
                      sizes: map<string, uint64>)
    requires left <= known && Backs(last, d) && (d in known ==> d !in sizes)
    requires BytesOf(orphans, known) == Sum(known - left, U.Sizes(sizes))
    ensures BytesOf(if d in left then orphans else orphans + [last], known) ==
      Sum(known - left, U.Sizes(if d in known then sizes[d := last.size] else sizes))
  {
    BytesOfOneMore(orphans, last, known);
    if d in known {
      SumOneSize(known - left, sizes, d, last.size);
    }
  }

  lemma ScanOneMore(chunks: seq<ObjectInfo>, known: set<string>, left: set<string>, now: int, grace: int, d: string)
    requires chunks != [] && Backs(chunks[|chunks| - 1], d) && left <= known &&
      ScanChunks(chunks, known, now, grace).Ok?
    ensures var front, last := chunks[..|chunks| - 1], chunks[|chunks| - 1];
      && ScanChunks(front, known, now, grace).Ok?
      && ScanChunks(chunks, known, now, grace).value.sizes ==
         (if d in known then ScanChunks(front, known, now, grace).value.sizes[d := last.size]
          else ScanChunks(front, known, now, grace).value.sizes)
      && WithFate(chunks, Orphan, left, now, 0) ==
         (if d in left then WithFate(front, Orphan, left, now, 0) else WithFate(front, Orphan, left, now, 0) + [last])
  {
  }

  /** The chunks scheduled once `left` is all that is known, as far as they were known before. */
  lemma {:induction false} ForgottenBytes(chunks: seq<ObjectInfo>, known: set<string>, left: set<string>, now: int,
                                          grace: int)
    requires ListedOnce(chunks) && left <= known && ScanChunks(chunks, known, now, grace).Ok?
    ensures BytesOf(WithFate(chunks, Orphan, left, now, 0), known) ==
      Sum(known - left, U.Sizes(ScanChunks(chunks, known, now, grace).value.sizes))
    decreases |chunks|
  {
    if chunks == [] {
      SumZero(known - left, U.Sizes(map[]));
    } else {
      var front, last := chunks[..|chunks| - 1], chunks[|chunks| - 1];
      var d := ChunkDigestFromKey(last.key).value;
      ScanOneMore(chunks, known, left, now, grace, d);
      ForgottenBytes(front, known, left, now, grace);
      if d in known {
        SizeNotSeen(chunks, known, now, grace, d);
      }
      ForgottenStep(WithFate(front, Orphan, left, now, 0), last, d, known, left,
                    ScanChunks(front, known, now, grace).value.sizes);
    }
  }

  lemma {:induction false} SizesAgree(chunks: seq<ObjectInfo>, known: set<string>, left: set<string>, now: int,
                                      grace: int, grace': int, d: string)
    requires d in left && left <= known
    requires ScanChunks(chunks, known, now, grace).Ok?
    ensures ScanChunks(chunks, left, now, grace').Ok?
    ensures U.SizeIn(ScanChunks(chunks, left, now, grace').value.sizes, d) ==
      U.SizeIn(ScanChunks(chunks, known, now, grace).value.sizes, d)
    decreases |chunks|
  {
    if chunks != [] {
      SizesAgree(chunks[..|chunks| - 1], known, left, now, grace, grace', d);
    }
  }

  lemma {:induction false} ChunksAreOk(chunks: seq<ObjectInfo>, known: set<string>, left: set<string>, now: int,
                                       grace: int, grace': int)
    requires ScanChunks(chunks, known, now, grace).Ok?
    ensures ScanChunks(chunks, left, now, grace').Ok?
    decreases |chunks|
  {
    if chunks != [] {
      ChunksAreOk(chunks[..|chunks| - 1], known, left, now, grace, grace');
    }
  }

  lemma {:induction false} SumSplits(all: set<string>, part: set<string>, f: string -> nat)
    requires part <= all
    ensures Sum(all, f) == Sum(part, f) + Sum(all - part, f)
    decreases |part|
  {
    if part == {} {
      assert all - part == all;
    } else {
      var x :| x in part;
      SumSplits(all - {x}, part - {x}, f);
      SumRemove(all, f, x);
      SumRemove(part, f, x);
      assert all - {x} - (part - {x}) == all - part;
    }
  }

  // ---------------------------------------------------------------- theorems

  /** Nothing but the deleted prefix may have started or stopped to expire. */
  ghost predicate SameButFor(later: set<string>, before: set<string>, prefix: string) {
    forall p :: p != prefix ==> (p in later <==> p in before)
  }

  lemma {:induction false} ScanOfTheRest(backups: seq<ObjectInfo>, later: set<string>, before: set<string>,
                                         loaded: map<string, ParsedIndex>)
    requires forall o :: o in backups && SnapshotPrefixForObject(o.key).Some? ==>
      (SnapshotPrefixForObject(o.key).value in later <==> SnapshotPrefixForObject(o.key).value in before)
    ensures ScanBackups(backups, later, loaded) == ScanBackups(backups, before, loaded)
    decreases |backups|
  {
    if backups != [] {
      var front, last := backups[..|backups| - 1], backups[|backups| - 1];
      assert backups == front + [last];
      ScanOfTheRest(front, later, before, loaded);
    }
  }

  lemma DeletedScans(inv: Inventory, later: set<string>, before: set<string>, prefix: string)
    requires IsPrefix(prefix) && SameButFor(later, before, prefix)
    ensures ScanBackups(Deleted(inv, prefix).backups, later, inv.loaded) ==
      ScanBackups(Deleted(inv, prefix).backups, before, inv.loaded)
  {
    var rest := Deleted(inv, prefix).backups;
    forall o | o in rest && SnapshotPrefixForObject(o.key).Some?
      ensures SnapshotPrefixForObject(o.key).value in later <==> SnapshotPrefixForObject(o.key).value in before
    {
      WithoutExactly(inv.backups, KeysBelow(inv.backups, prefix), o);
      BelowIsBelonging(o.key, prefix);
    }
    ScanOfTheRest(rest, later, before, inv.loaded);
  }

  lemma DeletedPlanIsOk(snapshots: seq<Snapshot>, fewer: seq<Snapshot>, inv: Inventory,
                        now: int, days: uint64, grace: int, prefix: string)
    requires PlanFor(snapshots, inv, now, days, grace).Ok? && !RetentionOverflows(days) && IsPrefix(prefix)
    requires SameButFor(ExpiredPrefixes(fewer, now, days), ExpiredPrefixes(snapshots, now, days), prefix)
    ensures PlanFor(fewer, Deleted(inv, prefix), now, days, 0).Ok?
    ensures ScanBackups(Deleted(inv, prefix).backups, ExpiredPrefixes(snapshots, now, days), inv.loaded).Ok?
    ensures PlanFor(fewer, Deleted(inv, prefix), now, days, 0).value.knownChunks ==
      ScanBackups(Deleted(inv, prefix).backups, ExpiredPrefixes(snapshots, now, days), inv.loaded).value.known
  {
    var expired := ExpiredPrefixes(snapshots, now, days);
    var b := ScanBackups(inv.backups, expired, inv.loaded).value;
    DeletedScanIsOk(inv, expired, prefix);
    DeletedScans(inv, ExpiredPrefixes(fewer, now, days), expired, prefix);
    var left := ScanBackups(Deleted(inv, prefix).backups, expired, inv.loaded).value;
    IndexedIsOk(inv.indexed, b.hashes, left.hashes, inv.checksums);
    ChunksAreOk(inv.chunks, b.known.Keys, left.known.Keys, now, grace, 0);
  }

  /**
   * Exclusive means freed. Deleting a snapshot makes the next plan, without
   * grace, schedule chunks the report counted. Their bytes are the exclusive
   * bytes reported for the snapshot, which is also what the distinct chunks
   * shrink by.
   */
  lemma ExclusiveIsFreed(snapshots: seq<Snapshot>, fewer: seq<Snapshot>, inv: Inventory,
                         now: int, days: uint64, grace: int, prefix: string)
    requires PlanFor(snapshots, inv, now, days, grace).Ok? && !RetentionOverflows(days)
    requires ListedOnce(inv.chunks) && IsPrefix(prefix)
    requires SameButFor(ExpiredPrefixes(fewer, now, days), ExpiredPrefixes(snapshots, now, days), prefix)
    ensures PlanFor(fewer, Deleted(inv, prefix), now, days, 0).Ok?
    ensures var plan, next := PlanFor(snapshots, inv, now, days, grace).value,
                              PlanFor(fewer, Deleted(inv, prefix), now, days, 0).value;
      var exclusive := U.Exclusive(prefix, U.OwnersOf(plan.knownChunks), plan.chunkSizes);
      && BytesOf(next.chunkObjects, plan.knownChunks.Keys) == exclusive
      && Sum(plan.knownChunks.Keys, U.Sizes(plan.chunkSizes)) ==
         Sum(next.knownChunks.Keys, U.Sizes(next.chunkSizes)) + exclusive
  {
    DeletedPlanIsOk(snapshots, fewer, inv, now, days, grace, prefix);
    var plan := PlanFor(snapshots, inv, now, days, grace).value;
    var next := PlanFor(fewer, Deleted(inv, prefix), now, days, 0).value;
    var expired := ExpiredPrefixes(snapshots, now, days);
    var known, left := plan.knownChunks.Keys, next.knownChunks.Keys;
    var owners := U.OwnersOf(plan.knownChunks);
    forall d ensures d in left ==> d in known
      ensures d in known && d !in left <==> d in known && U.Owners(plan.knownChunks[d]) == {prefix}
    {
      ForgottenIffExclusive(inv, expired, prefix, d);
    }
    assert U.ExclusiveTo(prefix, owners, owners.Keys) == known - left;
    ChunksPartition(inv.chunks, left, now, 0);
    ForgottenBytes(inv.chunks, known, left, now, grace);
    forall d | d in left ensures U.Sizes(next.chunkSizes)(d) == U.Sizes(plan.chunkSizes)(d) {
      SizesAgree(inv.chunks, known, left, now, grace, 0, d);
    }
    SumCongruent(left, U.Sizes(next.chunkSizes), U.Sizes(plan.chunkSizes));
    SumSplits(known, left, U.Sizes(plan.chunkSizes));
  }

  // -------------------------------------------------------------- conservation

  lemma PlanHasOwners(snapshots: seq<Snapshot>, inv: Inventory, now: int, days: uint64, grace: int, d: string)
    requires PlanFor(snapshots, inv, now, days, grace).Ok?
    requires d in PlanFor(snapshots, inv, now, days, grace).value.knownChunks
    ensures U.Owners(PlanFor(snapshots, inv, now, days, grace).value.knownChunks[d]) != {}
  {
    KnownHasOwner(inv, ExpiredPrefixes(snapshots, now, days), d);
  }

  lemma PlanFits(snapshots: seq<Snapshot>, inv: Inventory, now: int, days: uint64, grace: int,
                 known: map<string, seq<string>>, sizes: map<string, uint64>)
    requires PlanFor(snapshots, inv, now, days, grace).Ok?
    requires known == PlanFor(snapshots, inv, now, days, grace).value.knownChunks
    requires Sum(known.Keys, U.TimesOwned(U.OwnersOf(known), sizes)) < TWO_64
    ensures U.Fits(U.OwnersOf(known), sizes)
  {
    assert U.OwnersOf(known).Keys == known.Keys;
    forall d | d in known ensures U.Owners(known[d]) != {} {
      PlanHasOwners(snapshots, inv, now, days, grace, d);
    }
  }

  /** The report of a run, as long as its totals fit in 64 bits: exclusive <= chunk bytes <= referenced. */
  lemma PlanReportAddsUp(snapshots: seq<Snapshot>, inv: Inventory, now: int, days: uint64, grace: int, stats: U.Report)
    requires PlanFor(snapshots, inv, now, days, grace).Ok?
    requires var plan := PlanFor(snapshots, inv, now, days, grace).value;
      && U.IsReport(stats, plan.knownChunks, plan.chunkSizes, plan.archiveSizes)
      && Sum(plan.knownChunks.Keys, U.TimesOwned(U.OwnersOf(plan.knownChunks), plan.chunkSizes)) < TWO_64
    ensures U.ListSum(stats.snapshots, U.ExclusiveFigure()) <= stats.chunkBytes
    ensures stats.chunkBytes <= U.ListSum(stats.snapshots, U.ReferencedFigure())
  {
    var plan := PlanFor(snapshots, inv, now, days, grace).value;
    PlanFits(snapshots, inv, now, days, grace, plan.knownChunks, plan.chunkSizes);
    U.ReportAddsUp(stats, plan.knownChunks, plan.chunkSizes, plan.archiveSizes);
  }
}
