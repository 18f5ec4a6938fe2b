# A verified model of the S3 backup proxy and its garbage collector

The proxy speaks the Proxmox Backup protocol to its clients and keeps everything
in one S3 bucket per datastore: indexes under `backups/`, copies of fixed indexes
under `indexed/`, and chunks, named by their SHA-256 digest, under `chunks/`. The
collector lists a bucket, decides which snapshots have expired, and deletes their
objects, the copies nobody needs any more and the chunks no index references.

The model follows that division. Every algorithm the program runs on its own data
is a method or function proved against what it has to compute; everything that
several processes or requests do at the same time is a state machine whose steps
are those same functions, and the theorems speak of all its runs.

    dafny verify dfyconfig.toml

## What is proved

**The collector and the sessions it must not hurt.** `Datastore` is one bucket
with backup and restore sessions, close handlers, users deleting snapshots, a
proxy that may crash and a collector that may fail or stop at any delete.
`DatastoreSafety.EveryRunIsSafe` says that every index and every copied index
references only chunks that exist, in every state of every run, and that nothing
acknowledged to an open session, or sent to it in an index, is lost.
`DatastoreMixing.CompleteIffGuarded` gives the exact condition: collector and proxy
take the same process lock, a session does not end before its handlers have
returned, and, where copies get new metadata, no file is closed twice at the same
time. Each of the three is shown to be needed by a run that loses a chunk. In the
first of these the collector keeps a full day of grace: grace alone does not protect
an old orphan that a backup takes up again through the existence check, because the
hit does not refresh its modification time. What grace does give without any lock is
`DatastoreGrace`: a sweep takes no chunk that was not listed or was young at the mark,
and so leaves an index of such chunks complete. `DatastoreCopies` shows that naming a
checksum for reuse gives the index with that checksum exactly when no file is closed
twice at the same time.

**The plan.** `GcPlan.BuildGCPlan` computes the plan; `GcPlanFacts` proves that it
is an exact partition of the listing, `CollectorRun` that a second run deletes
nothing, `GcSweep` what is left after any pattern of failed deletes, and
`ExclusiveBytes` and `DeletedSnapshots` that what the usage report calls exclusive is
what deleting the snapshot lets the next run free. `RetentionFacts.RetentionIsExact`
says over unbounded integers which objects are scheduled, for every listing a run
accepts. An object is never scheduled before it is due, nor while the tag of its
manifest protects it; but a snapshot without a manifest can lose its protection to
another key that spells the same timestamp with leading zeros, and
`RetentionLimits.ProtectedObjectIsScheduled` is such a listing.

**Index files.** `FixedIndex` and `DynamicIndex` build the files in the order the
handlers do, byte by byte; `IndexFile` reads them in full and by the short ranged
read. Writing and reading are inverse, the short read agrees with the full one,
a chain of incremental files reads back as the last digest written to each block.
`FixedSessions` and `DynamicStreams` say the same of whole sessions, in terms of the
requests alone: whatever their order and however they are split, the file holds what was
sent last for each offset, and a stream comes back as it was sent. The failures are
characterised: the hole, the reused file too short for what is assigned, the size missing
in a whole session, the slots of zeros an offset at or beyond the size adds, the digest
spelled in upper case.

**Concurrent uploads.** `ChunkFlight` interleaves any number of requests, the bytes
of their bodies, the flow-control window they share (section 5.2 of RFC 9113) and
the answers of the store. Flights never overlap, success means stored, one PUT and
one "new" reply per chunk when nothing fails, and uploads can deadlock exactly when
followers wait with unread bodies.

**Caches and locks.** `CacheRuns` and `CacheInvalidation` prove freshness after
invalidation in all interleavings of the five caches. `CacheUses` adds that between
invalidations a value is never replaced by one fetched earlier, exactly when no entry
is looked up both with `Get` and with `GetAsync`, which the proxy never does.
`SessionLocks` proves that the named lock of a bucket is held exactly while a session
is open.

## What is taken for granted

These hold outside the code that is modelled, and each is a hypothesis that the
theorems state:

- Clients assign only digests that were acknowledged to them in this session or that
  they were sent in an index, use digests of 32 bytes in lower case, and send as
  `csum` the SHA-256 of the payload. The handlers check none of this
  (cmd/pmoxs3backuproxy/main.go:1219-1287). SHA-256 is a parameter; no two payloads
  written to the bucket have the same sum (`Datastore.NoCollisions`).
- The store is strongly consistent. A delete or PUT that reports an error may or may
  not have taken effect; one that reports none did.
- The collector and the proxy run on one machine and use the same endpoint and bucket
  names, so that the lock is shared (`Env.sharedLock`).
- When a session ends its request handlers are over (`Env.handlersJoined`).
  `ServeConn` of the HTTP/2 library, as the code calls it
  (cmd/pmoxs3backuproxy/http2.go:90), is not seen to wait for them.
- With a storage class configured for copies, two closes do not write the same file at
  the same time (`Env.closesApart`): the copy carries the checksum of its request rather
  than of the object it copied. The handlers do not enforce it
  (cmd/pmoxs3backuproxy/main.go:1018-1123).
- The offsets assigned to a new fixed index lie below its size
  (`Datastore.Assignable`). Where they do not, `FixedIndexFacts.LengthIsExactIffInRange`
  says what the file then holds.
- A chunk size is positive and size plus chunk size fits in 64 bits, so that closing
  loops end (`FixedIndex.LoopEnds`); the host is little endian, there are fewer than
  2^64 session operations, and generation counters of cache entries do not wrap.
- Where one snapshot is looked up by its own prefix, the timestamp in its key is a
  canonical decimal. The parser accepts leading zeros, and then the prefix printed is
  not the prefix read: `Snapshots.PrefixGivesDirBackIffCanonical` is the exact
  condition. Theorems that need it say so, of the one directory they speak of.

## Model

| member | source | states |
|---|---|---|
| ObjectKeys.ReportAndCollectorAgree | cmd/garbagecollector/stats.go:17-23 | every key the collector accepts is attributed to the same snapshot by the usage report |
| ObjectKeys.ChunkKeysRoundTrip | cmd/garbagecollector/gc.go:249-261 | the key the proxy writes for a digest and the digest the collector reads from a key are inverse, both ways |
| ObjectKeys.NameThenDigest | cmd/pmoxs3backuproxy/chunk_upload.go:31-37 | a chunk stored under a valid digest is read back as that digest |
| ObjectKeys.NameIsSpelled | cmd/pmoxs3backuproxy/chunk_upload.go:31-37 | the stored name, character by character: the digest in three parts below chunks/ |
| SnapshotFacts.PrefixIsSpelling | cmd/garbagecollector/gc.go:237-247 | the collector attributes a key to a prefix exactly when the key is spelled from it, a slash and anything |
| SnapshotFacts.PathIsSpelling | internal/s3pmoxcommon/s3pmoxcommon.go:52-59 | the grouping reads a key as a directory and a file exactly when it is spelled from them and neither is empty |
| SnapshotFacts.IdentityIsSpelling | internal/s3pmoxcommon/s3pmoxcommon.go:60-67 | a directory is read as id, time and type exactly when it is spelled from them with two bars |
| SnapshotFacts.TimestampIsSpelling | internal/s3pmoxcommon/s3pmoxcommon.go:64-67 | a timestamp is read exactly when it is a printed 64-bit number behind any number of zeros |
| ObjectKeys.ReprintIffCanonical | internal/s3pmoxcommon/s3pmoxcommon.go:157-159 | printing a parsed timestamp gives its text back exactly when it has no leading zeros |
| Snapshots.SnapshotsFromObjects | internal/s3pmoxcommon/s3pmoxcommon.go:45-113 | fails exactly on a malformed key; otherwise one snapshot per prefix, in order of first appearance, with exactly its files |
| Snapshots.GroupByPrefix | internal/s3pmoxcommon/s3pmoxcommon.go:46-105 | the grouping loop: what the map and the order hold after any prefix of the listing |
| Snapshots.OneSnapshotPerDir | internal/s3pmoxcommon/s3pmoxcommon.go:106-112 | with corrupted snapshots included, the i-th result is the snapshot of the i-th prefix |
| Snapshots.DirsAreKnown | internal/s3pmoxcommon/s3pmoxcommon.go:75-87 | the prefixes are exactly those of the listed objects, without repetition |
| SnapshotFacts.DirsInOrder | internal/s3pmoxcommon/s3pmoxcommon.go:69-80 | of two prefixes the one first seen earlier in the listing comes first |
| SnapshotFacts.FileJoins | internal/s3pmoxcommon/s3pmoxcommon.go:96-102 | one more object of a directory is its last file, by name and size, unless the name ends in .csjson |
| SnapshotFacts.OthersStayOut | internal/s3pmoxcommon/s3pmoxcommon.go:96-102 | an object of another directory changes no file list |
| SnapshotFacts.TagIsListed | internal/s3pmoxcommon/s3pmoxcommon.go:84-86 | a snapshot is listed as protected exactly when one of its objects carries the tag |
| SnapshotFacts.CorruptedIsListed | internal/s3pmoxcommon/s3pmoxcommon.go:81-83 | a snapshot is corrupted exactly when the file of that name is listed in it |
| SnapshotFacts.CorruptedIsLeftOut | internal/s3pmoxcommon/s3pmoxcommon.go:105-112 | without corrupted snapshots each of the others keeps its place |
| Snapshots.PrefixGivesDirBackIffCanonical | internal/s3pmoxcommon/s3pmoxcommon.go:157-159 | S3Prefix of a grouped snapshot is its prefix in the listing exactly for canonical timestamps |
| Snapshots.WalkDataStoreUsage | cmd/pmoxs3backuproxy/sizes.go:361-393 | objects, bytes, chunk bytes and distinct snapshot prefixes of a full walk, modulo 2^64 |
| Snapshots.WalkCountsTheSnapshots | cmd/pmoxs3backuproxy/sizes.go:374-386 | the walk counts as many snapshots as the grouping returns |
| SnapshotFacts.OneObjectsBytes | cmd/pmoxs3backuproxy/sizes.go:361-393 | an object counts its size below a prefix exactly when its key goes on after it |
| SnapshotFacts.BytesAddUp | cmd/pmoxs3backuproxy/sizes.go:361-393 | the bytes of two parts of a listing add up |
| SnapshotFacts.ChunksAreCounted | cmd/pmoxs3backuproxy/sizes.go:361-393 | what the proxy stores as a chunk is counted as chunk bytes |
| Retention.ExpiryIsExact | cmd/garbagecollector/gc.go:209-219 | the guarded 64-bit test decides BackupTime + 86400*days < now over unbounded integers, and fails exactly when the seconds overflow |
| Retention.ExpiryIsMonotone | cmd/garbagecollector/gc.go:209-219 | what has expired stays expired later and with shorter retention |
| Retention.RefreshExpiredSnapshotProtection | cmd/garbagecollector/gc.go:165-200 | overwrites in place the protection of the expired snapshots that have a manifest, of no other, fails exactly when a key, a retention or a tag does, and names the culprit |
| RetentionFacts.RefreshesIff | cmd/garbagecollector/gc.go:165-200 | the refresh needs a snapshot for each key ending in /index.json.blob and the tags of the snapshots that are due, of no other |
| Retention.FindManifests | cmd/garbagecollector/gc.go:174-183 | the prefixes under which a manifest is listed |
| GcPlan.BuildGCPlan | cmd/garbagecollector/gc.go:263-354 | the plan, or the first error in listing order, as the specification defines it |
| GcPlan.FindExpired | cmd/garbagecollector/gc.go:283-293 | the unprotected expired snapshots and their prefixes |
| GcPlan.MarkBackups | cmd/garbagecollector/gc.go:295-319 | objects of expired snapshots, references, checksums and archive sizes of the retained indexes |
| GcPlan.MarkIndexed | cmd/garbagecollector/gc.go:321-329 | the copies whose checksum no retained fixed index has |
| GcPlan.MarkChunks | cmd/garbagecollector/gc.go:331-346 | referenced, young and orphaned chunks |
| GcPlan.FindMissing | cmd/garbagecollector/gc.go:348-352 | known chunks that were not listed, whatever order the map is visited in |
| GcPlanFacts.PlanIsAPartition | cmd/garbagecollector/gc.go:295-352 | each listed chunk is referenced, young or scheduled; snapshots are scheduled whole or not at all; missing is known minus listed |
| GcPlanFacts.ScheduledIffUnusedAndOld | cmd/garbagecollector/gc.go:331-346 | a listed chunk is scheduled exactly when no retained index references it and grace <= 0 or lastModified + grace <= now; the younger ones are what is protected by grace |
| GcPlanFacts.PlannedIffReadable | cmd/garbagecollector/gc.go:263-354 | there is a plan exactly when retention does not overflow, every key can be attributed and every retained index and every copy was read |
| GcPlanFacts.FailsWithTheFirst | cmd/garbagecollector/gc.go:263-354 | and without one, the error is the first fault of backups, copies, chunks, in listing order |
| GcPlanFacts.ExpiredExactly | cmd/garbagecollector/gc.go:283-293 | the expired snapshots are, in order, the unprotected ones with BackupTime + 86400*days < now |
| GcPlanFacts.ScheduledInOrder | cmd/garbagecollector/gc.go:295-304 | objects are scheduled in the order of the listing |
| GcPlanFacts.StaleInOrder | cmd/garbagecollector/gc.go:321-329 | and so are the copies |
| GcPlanFacts.ReferencesAreRepeated | cmd/garbagecollector/gc.go:315-319 | an index is recorded for a digest as often as it names it, after the indexes before it |
| GcPlanFacts.PlanSparesReferences | cmd/garbagecollector/gc.go:311-346 | no chunk of a retained index, none with lastModified + grace > now and none that is not listed is scheduled; a copy that stays has the checksum of a retained fixed index |
| GcPlanFacts.KnownExactly | cmd/garbagecollector/gc.go:316-318 | a key is recorded for a digest exactly when it is a retained index that references it |
| GcPlanFacts.ChunksPartition | cmd/garbagecollector/gc.go:331-346 | the three fates of a chunk add up to the listing |
| GcPlanFacts.HashesAreLive | cmd/garbagecollector/gc.go:312-314 | a checksum counts as live only through a retained fixed index |
| CollectorRun.Mark | cmd/garbagecollector/main.go:200-270 | grouping, refusal of an empty bucket, refresh and plan in one run, and which of them it fails with |
| RetentionFacts.RetentionIsExact | cmd/garbagecollector/gc.go:283-304 | for every listing a run accepts: an object is scheduled exactly when its directory is canonical and past its retention and some listed snapshot of the same identity is unprotected |
| RetentionFacts.ScheduledIsDueAndUntagged | cmd/garbagecollector/gc.go:165-219 | whatever else is listed and however, a scheduled object is past its retention, in plain seconds, and if its directory lists a manifest, the tag of index.json.blob was read and does not protect it |
| RetentionFacts.ManifestIffListed | cmd/garbagecollector/gc.go:174-183 | a directory has a manifest exactly when a key of it ends in /index.json.blob, whatever else the listing says of the object |
| RetentionFacts.RetentionOfOne | cmd/garbagecollector/gc.go:165-219 | a canonical directory no other key repeats is scheduled exactly when it is due and neither the tag of its index.json.blob nor, without a manifest, the tag of any of its objects protects it |
| RetentionFacts.PrintsIffSame | internal/s3pmoxcommon/s3pmoxcommon.go:157-159 | two directories print one prefix, that of the second, exactly when their identities agree and the second is canonical |
| RetentionLimits.AliasDefeatsProtection | cmd/garbagecollector/gc.go:283-304 | a protected snapshot without a manifest is scheduled when an unprotected key spells its timestamp with leading zeros |
| RetentionLimits.ProtectedObjectIsScheduled | cmd/garbagecollector/gc.go:283-304 | such a listing: a protected snapshot at second 7 beside an unprotected one at second 007 |
| CollectorRun.SecondRunDeletesNothing | cmd/garbagecollector/gc.go:263-354 | after a complete sweep a second run at the same instant refuses an empty bucket, or gets as far as a plan with the tags it has, and deletes nothing, misses nothing and knows the same chunks |
| GcSweep.Store.RemoveObjectsFully | cmd/garbagecollector/gc.go:67-96 | the bucket after one round with any pattern of failures, and an error exactly when one was reported |
| GcSweep.Store.ExecuteGCPlan | cmd/garbagecollector/gc.go:224-235 | three rounds, none of which starts after a failure in the one before |
| GcSweep.SweepIsExact | cmd/garbagecollector/gc.go:221-235 | without errors exactly the plan is gone; a sweep that stops before its last round has touched no chunk |
| GcSweep.SweepIsARun | cmd/garbagecollector/gc.go:224-235 | every sweep is a run of the shared-bucket machine |
| GcSweep.AnySweepIsSafe | cmd/garbagecollector/main.go:310-316 | whichever deletes fail, every index that is left has all its chunks |
| DatastoreSafety.StepKeepsBase | cmd/garbagecollector/main.go:169-319 | every step of sessions, users and collector keeps the invariant of lock, listing and plan |
| DatastoreSafety.EveryRunIsSafe | cmd/pmoxs3backuproxy/http2.go:70-117 | in every run, every index and copy references existing chunks, and open sessions lose nothing they were promised |
| DatastoreSessions.WhatWasReadStays | cmd/pmoxs3backuproxy/http2.go:20-62 | from the moment an index is sent to a session, all its chunks exist until the session ends, even if the index is deleted |
| DatastoreSessions.WhatWasAckedStays | cmd/pmoxs3backuproxy/http2.go:20-62 | and so does a chunk from the moment it is acknowledged |
| DatastoreSafety.SweepsOnlyWithNothingMissing | cmd/garbagecollector/main.go:272-300 | even in a damaged bucket, a sweep is under way only if every index it spares is complete |
| DatastoreSafety.UntouchedIndexStaysComplete | cmd/garbagecollector/gc.go:221-235 | in any bucket, an index that was complete and is not touched stays complete |
| DatastoreSafety.ClosedIsPromised | cmd/pmoxs3backuproxy/main.go:1018-1083 | a closed index holds only assigned digests and digests of the reused copy, all of which exist |
| DatastoreSafety.LossIsAnOrphan | cmd/garbagecollector/gc.go:331-346 | a chunk disappears only in the last round of a sweep and only if no retained index knows it |
| DatastoreLimits.UnsharedLockLosesChunks | cmd/garbagecollector/main.go:169-182 | without the shared lock a run with a day of grace loses a chunk |
| DatastoreLimits.LateHandlerLosesChunks | cmd/pmoxs3backuproxy/http2.go:78-90 | a handler that outlives its session can store an index after its chunks are gone |
| DatastoreMixing.MixedClosesLoseChunks | cmd/pmoxs3backuproxy/main.go:1101-1123 | with a storage class for copies, two closes of one file leave a copy under a foreign checksum, and a collector run then takes its chunk |
| DatastoreMixing.CompleteIffGuarded | cmd/pmoxs3backuproxy/http2.go:20-62 | the bucket always stays complete exactly when the lock is shared, handlers are waited for and, with new metadata on copies, no file is closed twice at a time |
| DatastoreCopies.MixedClosesMiskey | cmd/pmoxs3backuproxy/main.go:1101-1123 | two closes of one file side by side leave a copy under a checksum its digests do not have |
| DatastoreCopies.ReuseIsExactIff | cmd/pmoxs3backuproxy/main.go:1023-1049 | the copy a backup names for reuse always is the index with that checksum exactly when no file is closed twice at a time |
| DatastoreGrace.GraceSparesTheYoung | cmd/garbagecollector/gc.go:331-346 | in any run, locked or not, a chunk that was not listed, or with lastModified + grace after the mark, is not a key of that sweep |
| DatastoreGrace.OnlyTheOldGo | cmd/garbagecollector/main.go:103-108 | in any run, locked or not, a chunk that a step removes was listed with lastModified + grace at or before the mark |
| DatastoreGrace.GraceSparesAnIndex | cmd/garbagecollector/gc.go:295-346 | in any run, locked or not, an index complete during a sweep whose chunks were unlisted or young at the mark keeps them until the next plan, and is not taken itself unless its snapshot was expired |
| DatastoreGrace.GraceSparesAnUpload | cmd/garbagecollector/main.go:96-108 | in any run, a chunk uploaded while no chunk listing was in use is spared by every plan made within the grace period after it |
| DatastoreAging.OrphanGoesOnceOld | cmd/garbagecollector/main.go:96-108 | for any grace period an orphan that has just reached it can be taken |
| UsageStats.ComputeUsageStats | cmd/garbagecollector/stats.go:30-80 | every figure of the report is the exact sum modulo 2^64; snapshots sorted, unique, exactly those with an archive or a reference |
| UsageStats.FindOwners | cmd/garbagecollector/stats.go:56-59 | repeated references of a snapshot count once |
| UsageStats.OwnersExactly | cmd/garbagecollector/stats.go:56-59 | a snapshot owns a chunk exactly when one of its indexes references it |
| UsageStats.ReportConserves | cmd/garbagecollector/stats.go:51-68 | sum of exclusive <= chunk bytes <= sum of referenced, and the last is the sum of size times owners, over any names that cover the owners |
| UsageStats.ReportAddsUp | cmd/garbagecollector/stats.go:30-80 | the figures the report lists add up so, when the total fits in 64 bits |
| UsageStats.LogicalAddsUp | cmd/garbagecollector/stats.go:45-47 | the logical sizes of the snapshots add up to those of the archives |
| UsageStats.InsertKeepsOrder | cmd/garbagecollector/stats.go:75-77 | sorting by name keeps every entry once |
| UsageStats.LessIsBytewise | cmd/garbagecollector/stats.go:75-77 | the order is that of the first character that differs |
| ExclusiveBytes.BelowIsBelonging | internal/s3pmoxcommon/s3pmoxcommon.go:189-201 | deleting below the prefix and a slash hits the objects of that snapshot and of no other |
| ExclusiveBytes.ForgottenIffExclusive | cmd/garbagecollector/stats.go:60-67 | a chunk stops being referenced exactly when the deleted snapshot was its only owner |
| ExclusiveBytes.ExclusiveIsFreed | cmd/garbagecollector/stats.go:60-68 | bytes newly scheduled after deleting a snapshot = its exclusive bytes = distinct bytes with it minus without it |
| DeletedSnapshots.DeletingFreesExclusiveBytes | cmd/garbagecollector/gc.go:295-346 | the same from one complete run to the next: plan, sweep, a user deletes a snapshot that is left, second run; only that one directory has to be canonical |
| DeletedSnapshots.DeletingListedFrees | cmd/garbagecollector/gc.go:295-346 | the same when the first plan was not swept |
| ExclusiveBytes.PlanReportAddsUp | cmd/garbagecollector/stats.go:51-68 | the same inequality for the report of every plan, whose chunks all have an owner |
| SessionLocks.Server.BeginDataStoreSession | cmd/pmoxs3backuproxy/http2.go:24-46 | counts, total and lock after a begin, failed ones included |
| SessionLocks.Server.EndDataStoreSession | cmd/pmoxs3backuproxy/http2.go:48-62 | counts, total and lock after an end, unmatched ones included |
| SessionLocks.LocksFollowSessions | cmd/pmoxs3backuproxy/http2.go:20-62 | over any sequence, the total is the sum of the counts, the lock is held exactly while the count is positive, every acquire is released once |
| SessionLocks.NoCollectorOverlapsASession | cmd/garbagecollector/main.go:169-182 | no other process holds the lock of a bucket with an open session |
| SessionLocks.OthersKeepTheirLocks | cmd/pmoxs3backuproxy/http2.go:24-46 | a lock another process holds stays with it until it gives it back |
| SessionLocks.FreeLocksAreGiven | cmd/pmoxs3backuproxy/http2.go:24-46 | a free lock goes to whoever asks and waits, and an open session can be joined |
| IndexBytes.Word64RoundTrip | cmd/garbagecollector/gc.go:121-131 | a 64-bit word written little endian reads back |
| IndexBytes.LeastSignificantFirst | cmd/garbagecollector/gc.go:121-131 | a stored word is the sum of its bytes by powers of 256, the first byte lowest |
| IndexBytes.DecodeThenEncode | cmd/pmoxs3backuproxy/main.go:1277-1286 | decoding a digest and printing it gives it back exactly when it is lower case |
| IndexBytes.DecodeThenEncodeLowers | cmd/pmoxs3backuproxy/main.go:1277-1286 | decoding and printing is putting in lower case |
| IndexBytes.HighDigitFirst | cmd/pmoxs3backuproxy/main.go:1153-1158 | a byte is printed as two hexadecimal digits, the high one first |
| IndexBytes.DecodesUpTo | cmd/pmoxs3backuproxy/main.go:1277-1286 | a text that stops being hexadecimal decodes up to there |
| IndexBytes.DigestsAreHexDigits | cmd/garbagecollector/gc.go:255-259 | a digest is 64 hexadecimal digits in either case |
| IndexBytes.SameObjectIffLowerCase | cmd/pmoxs3backuproxy/chunk_upload.go:31-37 | the object an index leads to is the one the upload stored exactly for lower-case digests |
| IndexFile.CompareSum | cmd/garbagecollector/main.go:28-45 | accepts exactly when header, payload and metadata checksums agree |
| IndexFile.ParseIndex | cmd/garbagecollector/gc.go:104-143 | size checks, checksum, magic, alignment, digests and logical size of both formats |
| IndexFile.ParsesIff | cmd/garbagecollector/gc.go:104-143 | exactly the files of 4096 bytes and whole entries, with their magic and one checksum in three places, parse |
| IndexFile.RefusalSays | cmd/garbagecollector/gc.go:104-143 | which check a refused file fails first |
| IndexFile.FixedSays | cmd/garbagecollector/gc.go:118-126 | where in a fixed index its digests and its size are |
| IndexFile.DynamicSays | cmd/garbagecollector/gc.go:127-138 | where in a dynamic index its digests and its size are |
| IndexFile.ShortReadAnswers | internal/s3pmoxcommon/indexsize.go:61-108 | for any bytes and any claimed length, what the short read answers and when it refuses |
| IndexFile.FastSizeAgrees | internal/s3pmoxcommon/indexsize.go:61-108 | for every file the full parse accepts, at most 80 bytes give the same size |
| FixedIndex.Writer.Assign | cmd/pmoxs3backuproxy/main.go:1247-1287 | all or nothing on lengths and alignment; undecodable digests are reported and assigned as far as they decode |
| FixedIndex.AssignAllIsLast | cmd/pmoxs3backuproxy/main.go:1277-1286 | of several digests for one offset the last stays |
| FixedSessions.AssignChangesOnly | cmd/pmoxs3backuproxy/main.go:1277-1286 | a request changes what it names, to the last it says, and leaves every other assignment as it was |
| FixedSessions.ServeWriter | cmd/pmoxs3backuproxy/main.go:1018-1287 | over any requests on one index: a new one closes exactly when every block was sent, and block j holds what was sent last for its offset in any request, or for a reused one what was there; and the header, field by field |
| FixedIndex.Writer.Fill | cmd/pmoxs3backuproxy/main.go:1066-1083 | the closing loop on any bytes: a hole exactly when a block of a new index is unassigned, a panic exactly when a reused file has no room for an assigned slot, otherwise the assigned slots laid over the bytes there were |
| FixedIndex.Writer.Close | cmd/pmoxs3backuproxy/main.go:1018-1083 | for any checksum and any reused file: every byte of what is stored, and exactly when each of the four ways to end is taken |
| FixedIndex.ReusableIsReworked | cmd/pmoxs3backuproxy/main.go:1023-1083 | a reused index that a proxy wrote never makes the close panic, and comes out with its slots overlaid and its size kept |
| FixedIndex.FreshIsFilled | cmd/pmoxs3backuproxy/main.go:1049-1083 | a new index without a hole is its header and its zero slots, overlaid |
| FixedIndex.SlotIsThere | cmd/pmoxs3backuproxy/main.go:1049-1083 | without a hole so far the next block has a slot: no write is out of range |
| FixedIndexFacts.ClosedParsesBack | cmd/garbagecollector/gc.go:104-126 | a closed file parses exactly when the checksum is honest, and gives its slots and size |
| FixedIndexFacts.LastWriterWins | cmd/pmoxs3backuproxy/main.go:1068-1083 | the overlays of a chain hold in block j the last digest assigned to its offset |
| FixedIndexFacts.ChainHolds | cmd/pmoxs3backuproxy/main.go:1023-1083 | every file of a chain of closes is reusable in turn and holds the overlays so far |
| FixedIndexFacts.ChainReadsBack | cmd/pmoxs3backuproxy/main.go:1023-1083 | the last file of a chain has 32 bytes per block beside its header exactly when the first offsets were in range, and parses to the size and, block by block, the digest last assigned |
| FixedIndexFacts.ChainLength | cmd/pmoxs3backuproxy/main.go:1023-1051 | reuse keeps the number of slots |
| FixedIndexFacts.LengthIsExactIffInRange | cmd/pmoxs3backuproxy/main.go:1050-1051 | 4096 + 32 per block exactly when no offset is at or beyond the size; other slots hold zeros |
| FixedIndexFacts.CloseOverwritesBlocks | cmd/pmoxs3backuproxy/main.go:1068-1083 | the byte-level close is the overlay the shared-bucket machine performs |
| FixedIndexFacts.FreshCloseNamesEveryBlock | cmd/pmoxs3backuproxy/main.go:1068-1083 | a new index is the overlay of every block, the form in which the shared-bucket machine closes one |
| DynamicIndex.DynamicWriter.Assign | cmd/pmoxs3backuproxy/main.go:1219-1245 | one assignment per digest, failing at the first missing offset, and whether every digest decoded |
| DynamicIndex.DynamicWriter.LoadSideFile | cmd/pmoxs3backuproxy/main.go:941-961 | the session afterwards: the sizes of a sent index are merged into the known ones |
| DynamicIndex.DynamicWriter.Close | cmd/pmoxs3backuproxy/main.go:1125-1173 | the stored file and its side file, or the failure, which happens exactly when an assigned digest has no size |
| DynamicIndex.SortKeys | cmd/pmoxs3backuproxy/main.go:1147-1151 | offsets come out in ascending signed order from any map order |
| DynamicIndexFacts.ClosedParsesByOffset | cmd/garbagecollector/gc.go:127-138 | read back, the digests by ascending offset and the end of the last chunk as size |
| DynamicIndexFacts.StreamRoundTrip | cmd/pmoxs3backuproxy/main.go:1153-1171 | assignments that tile a stream come back as the stream with its length |
| DynamicStreams.StreamComesBack | cmd/pmoxs3backuproxy/main.go:1125-1245 | a stream sent in any order and over any requests is read back as its digests by ascending offset, with the sum of the lengths as size |
| DynamicStreams.StreamIsRemembered | cmd/pmoxs3backuproxy/main.go:1153-1171 | its side file has the length of every chunk and of nothing else |
| DynamicStreams.PlacedIsLastPut | cmd/pmoxs3backuproxy/main.go:1238-1245 | at every offset, as a signed number, is what was sent last for it in any request |
| DynamicStreams.SentSizeWins | cmd/pmoxs3backuproxy/main.go:1141-1145 | the size of a digest is that of the last side file that has it, else of its last upload |
| DynamicStreams.HeaderIsSpelled | cmd/pmoxs3backuproxy/main.go:1129-1139 | the header of a dynamic index, field by field |
| DynamicIndexFacts.EndsAscend | cmd/pmoxs3backuproxy/main.go:1165-1168 | each end offset is the next start: strictly increasing |
| DynamicSessions.CloseSucceedsIffBacked | cmd/pmoxs3backuproxy/main.go:1158-1164 | over any sequence of uploads, loads and assignments, the close does not panic exactly when each digest assigned in the end was told a size under its lower-case text |
| DynamicSessions.ServeSession | cmd/pmoxs3backuproxy/main.go:1125-1173 | the handlers, run over any such sequence, store the files of what was replayed under exactly that condition, and otherwise panic on an assigned digest that was told none |
| DynamicSessions.HonestSessionNeverPanics | cmd/pmoxs3backuproxy/main.go:941-961 | a client that assigns, in lower case, what it uploaded for the index or found in one it was sent never meets the panic |
| DynamicSessions.UploadServesIffLowerCase | cmd/pmoxs3backuproxy/main.go:1158-1164 | a recorded upload serves an assignment of its digest exactly when it was lower case |
| ChunkUpload.DrainChunkBody | cmd/pmoxs3backuproxy/chunk_upload.go:145-154 | accepts exactly an unbroken body of the expected length |
| ChunkUpload.StoreBufferedChunk | cmd/pmoxs3backuproxy/chunk_upload.go:211-256 | when it succeeds, what it answers, what it stores, and that it uploads nothing but a whole body |
| ChunkUpload.StoreStreamedChunk | cmd/pmoxs3backuproxy/chunk_upload.go:259-307 | when it succeeds, what it answers and stores, and how many PUTs it makes, for a store that may answer before it has read the body; it may store and then refuse |
| ChunkUpload.StoreChunk | cmd/pmoxs3backuproxy/chunk_upload.go:181-193 | both paths succeed for the same requests with the same answer, unless the store answers a streamed PUT early; success means stored, with one PUT or none |
| ChunkFlight.ChunkFlightGroup.Enter | cmd/pmoxs3backuproxy/chunk_upload.go:97-120 | the first request of a key leads a new flight, the others follow it |
| ChunkFlight.ChunkFlightGroup.Finish | cmd/pmoxs3backuproxy/chunk_upload.go:135-143 | the flight has its outcome and is out of the map |
| ChunkFlightSafety.EveryRunIsSafe | cmd/pmoxs3backuproxy/chunk_upload.go:91-143 | flights of a key never overlap, success means stored, no entry outlives its leader |
| ChunkFlightSafety.ExactlyOnce | cmd/pmoxs3backuproxy/chunk_upload.go:91-256 | without faults one PUT and one reply of "new" per chunk that was missing, none for one that was there |
| ChunkFlightSafety.SuccessMeansWholeBody | cmd/pmoxs3backuproxy/chunk_upload.go:145-154 | no request, leader or follower, succeeds before its body was read to the announced length |
| ChunkFlightSafety.FaultsAreTold | cmd/pmoxs3backuproxy/chunk_upload.go:91-143 | a request whose stat or PUT reports an error, whose body breaks or whose handler panics is never answered without an error |
| ChunkFlightProgress.NeverStuck | cmd/pmoxs3backuproxy/chunk_upload.go:82-118 | any unanswered request leaves some request able to move |
| ChunkFlightProgress.EveryRunEnds | cmd/pmoxs3backuproxy/chunk_upload.go:91-143 | no run is longer than the work there was |
| ChunkFlightProgress.DeadlockIffUndrained | cmd/pmoxs3backuproxy/chunk_upload.go:82-118 | on a window of any size uploads can deadlock exactly when followers do not drain |
| TtlCache.Cache.Get | cmd/pmoxs3backuproxy/cache.go:89-116 | a value fetched at t is served without a fetch exactly while t + ttl > now; what is returned on success, error and stale value, and the entry afterwards |
| TtlCache.Cache.GetAsync | cmd/pmoxs3backuproxy/cache.go:128-147 | returns what is there and starts a refresh exactly when t + ttl <= now, or nothing valid is there, and none is running |
| TtlCache.Cache.FinishRefresh | cmd/pmoxs3backuproxy/cache.go:147-163 | a result of an earlier generation, or an error, changes nothing but the flag |
| TtlCache.Cache.Peek | cmd/pmoxs3backuproxy/cache.go:172-177 | what is cached, without a fetch |
| TtlCache.Cache.Store | cmd/pmoxs3backuproxy/cache.go:182-190 | the value is recorded and the generation moves on |
| TtlCache.Cache.Invalidate | cmd/pmoxs3backuproxy/cache.go:195-201 | the entry is no longer valid and the generation moves on |
| TtlCache.Cache.InvalidatePrefix | cmd/pmoxs3backuproxy/cache.go:207-218 | exactly the entries below the prefix are invalidated, in any order |
| TtlCache.Cache.Expire | cmd/pmoxs3backuproxy/cache.go:224-232 | the value stays and is stale |
| CacheRuns.FreshMeansAfterInvalidation | cmd/pmoxs3backuproxy/cache.go:89-232 | a fresh fetched value comes from a fetch that began after the last invalidation; at most one refresh runs |
| CacheRuns.StepKeepsNewer | cmd/pmoxs3backuproxy/cache.go:128-167 | no step brings back a value from before an invalidation |
| CacheRuns.AgeDecides | cmd/pmoxs3backuproxy/cache.go:95-97 | in any world a lookup fetches exactly when the time since the fetch has reached the lifetime |
| CacheUses.LaterStaysIffSeparate | cmd/pmoxs3backuproxy/cache.go:89-167 | over any stretch of any run a recent value only gives way to one fetched no earlier, exactly when no entry is looked up both with Get and with GetAsync |
| CacheUses.ProxyNeverGoesBack | cmd/pmoxs3backuproxy/main.go:332-363 | so it holds of the five caches as the proxy uses them |
| CacheInvalidation.InvalidateDataStoreCachesLocal | cmd/pmoxs3backuproxy/cache_invalidation.go:23-29 | what each of the five caches holds afterwards |
| CacheInvalidation.NothingOldLooksFresh | cmd/pmoxs3backuproxy/cache_invalidation.go:23-29 | when the call returns, nothing of the datastore is fresh from a fetch begun before it, nor will be |
| CacheInvalidation.CallsKeepToTheirDatastore | cmd/pmoxs3backuproxy/cache_invalidation.go:23-29 | no step of a call changes an entry of another slash-free datastore name |
| ArchiveSizes.FillArchiveSizes | cmd/pmoxs3backuproxy/sizes.go:112-168 | adds to each snapshot the sizes of its archives, whatever the order the workers finish in |
| ArchiveSizes.LookUpAll | cmd/pmoxs3backuproxy/sizes.go:138-163 | every job is done once and a failed one leaves zero |
| ArchiveSizes.ListAgreesWithReport | cmd/garbagecollector/stats.go:45-47 | over the bytes of the stored files: the size in the backup list, from short reads, is the logical size the collector reports, from full parses |

## Left out

- HTTP routing, JSON, tickets, notes and tags endpoints, flags, signals and logging.
- The S3 client library: signing, listing pages, retries; a PUT or delete is one step with one of three outcomes.
- SHA-256, CRC32, zstd, UUIDs and clocks are parameters; decoding of manifest blobs is not modelled.
- Directory markers (cmd/garbagecollector/gc.go:40-42) are taken to be filtered from the listings already.
- Group listing, storage classes other than their effect on copied metadata, snapshot size modes, status arithmetic, GetLatestSnapshot.
- The token file that tells other processes to drop their caches. It is published after the local caches are dropped and recorded before they are dropped on reading (cmd/pmoxs3backuproxy/cache_invalidation.go:34-77), so no freshness across processes is claimed; nor is it for sizes nested in a cached snapshot list, which is dropped before the caches it is derived from.
- Collectors and proxies on different machines, except for `DatastoreGrace` and the counterexample `DatastoreLimits.UnsharedLockLosesChunks`. The clocks of store and collector are one.
- The lock name, a truncated SHA-256 of endpoint and bucket, is an opaque string: two buckets whose names collide would share a lock.
- Deletes of a sweep are one after the other; the library batches them, and the order within a round does not matter to any result here. Requests a collector or a proxy has under way when its process dies are taken to land, or to be lost, before its lock is released.
- FixedIndex.Writer.Close: how much spare room a slice has behind it, which the Go runtime decides, is a parameter; with a chunk size of zero, or a size within one chunk of 2^64, the loop of the handler need not end and nothing is claimed; slot positions are not wrapped to 64 bits, which would take 2^59 blocks.
- DynamicIndexFacts.ClosedParsesByOffset: the file of a close with a checksum that is not 32 bytes is given by the close itself; no parse of it is claimed.
- ChunkFlight.ChunkFlightGroup.Finish: the closing of the channel and the wake-up of the followers is one step of the machine.
- ChunkUpload.StoreStreamedChunk: the upload takes the body byte by byte, and a PUT shorter than announced stores nothing.
- TtlCache.Cache.Get: the fetch is a parameter; that the lock is held over it is modelled in CacheRuns.
- ArchiveSizes.FillArchiveSizes: the cache in front of the short reads is part of the lookup; sizes are an array beside the snapshots rather than a field of them.
- GcSweep.Store.RemoveObjectsFully: cancellation of the context, which the collector never does, is not modelled.
