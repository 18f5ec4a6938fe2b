/** Which snapshots the collector may expire: retention arithmetic and protection tags. */
module Retention {
  import opened Wrappers
  import opened Sums
  import opened ObjectKeys
  import opened Snapshots

  /** Why a run stops before deleting anything. */
  datatype GcError =
    | RetentionOverflow
    | BadListing
    | NoSnapshots
    | BadBackupKey(key: string)
    | UnreadableTag(key: string)
    | UnreadableIndex(key: string)
    | UnreadableChecksum(key: string)
    | BadChunkKey(key: string)

  const DAY: nat := 86400
  const SECOND: nat := 1_000_000_000

  /** Whole seconds of a time kept in nanoseconds, rounded down. */
  function Unix(now: int): int {
    now / SECOND
  }

  predicate RetentionOverflows(days: uint64) {
    days > (TWO_64 - 1) / DAY
  }

  function SnapshotExpired(snapshot: Snapshot, now: int, days: uint64): Result<bool, GcError> {
    if RetentionOverflows(days) then Err(RetentionOverflow)
    else
      var retentionSeconds: uint64 := days * DAY;
      var nowUnix := Unix(now);
      if nowUnix < 0 || nowUnix < retentionSeconds then Ok(false)
      else Ok(snapshot.backupTime < nowUnix - retentionSeconds)
  }

  /** The guarded 64-bit test decides the inequality it stands for over unbounded integers. */
  lemma ExpiryIsExact(snapshot: Snapshot, now: int, days: uint64)
    ensures SnapshotExpired(snapshot, now, days).Ok? <==> days * DAY < TWO_64
    ensures SnapshotExpired(snapshot, now, days).Ok? ==>
      (SnapshotExpired(snapshot, now, days).value <==> snapshot.backupTime + DAY * days < Unix(now))
  {
  }

  /** Waiting longer never un-expires a snapshot, and keeping longer never expires one. */
  lemma ExpiryIsMonotone(snapshot: Snapshot, now: int, later: int, days: uint64, fewer: uint64)
    requires now <= later && fewer <= days
    requires SnapshotExpired(snapshot, now, days) == Ok(true)
    ensures SnapshotExpired(snapshot, later, fewer) == Ok(true)
  {
    ExpiryIsExact(snapshot, now, days);
    ExpiryIsExact(snapshot, later, fewer);
    assert fewer * DAY <= days * DAY;
    assert Unix(now) <= Unix(later);
  }

  predicate Expired(snapshot: Snapshot, now: int, days: uint64) {
    SnapshotExpired(snapshot, now, days) == Ok(true)
  }

  // --------------------------------------------------------- protection tags

  predicate IsManifest(o: ObjectInfo) {
    HasSuffix(o.key, MANIFEST)
  }

  /** Prefixes under which a manifest is listed. */
  function Manifests(backups: seq<ObjectInfo>): set<string> {
    set i | 0 <= i < |backups| && IsManifest(backups[i]) && SnapshotPrefixForObject(backups[i].key).Some?
      :: SnapshotPrefixForObject(backups[i].key).value
  }

  /** The tag is read from the manifest of every expired, complete snapshot, and from no other. */
  predicate NeedsTag(s: Snapshot, manifests: set<string>, now: int, days: uint64) {
    Expired(s, now, days) && s.S3Prefix() in manifests
  }

  function Refreshed(s: Snapshot, manifests: set<string>, tags: map<string, bool>, now: int, days: uint64): Snapshot {
    if NeedsTag(s, manifests, now, days) && s.S3Prefix() + MANIFEST in tags
    then s.(isProtected := tags[s.S3Prefix() + MANIFEST]) else s
  }

  function RefreshAll(snapshots: seq<Snapshot>, manifests: set<string>, tags: map<string, bool>,
                      now: int, days: uint64): seq<Snapshot> {
    seq(|snapshots|, i requires 0 <= i < |snapshots| => Refreshed(snapshots[i], manifests, tags, now, days))
  }

  predicate ManifestParses(o: ObjectInfo) {
    IsManifest(o) ==> SnapshotPrefixForObject(o.key).Some?
  }

  predicate ManifestsParse(backups: seq<ObjectInfo>) {
    forall i :: 0 <= i < |backups| ==> ManifestParses(backups[i])
  }

  /** No step of the refresh fails: `tags` holds the tag of every manifest that can be read. */
  predicate Refreshable(snapshots: seq<Snapshot>, backups: seq<ObjectInfo>, tags: map<string, bool>,
                        now: int, days: uint64) {
    && ManifestsParse(backups)
    && (forall i :: 0 <= i < |snapshots| ==>
          SnapshotExpired(snapshots[i], now, days).Ok? &&
          (NeedsTag(snapshots[i], Manifests(backups), now, days) ==> snapshots[i].S3Prefix() + MANIFEST in tags))
  }

  lemma ManifestStep(front: seq<ObjectInfo>, last: ObjectInfo)
    ensures Manifests(front + [last]) == Manifests(front) +
      (if IsManifest(last) && SnapshotPrefixForObject(last.key).Some? then {SnapshotPrefixForObject(last.key).value}
       else {})
  {
    var all := front + [last];
    assert forall i :: 0 <= i < |front| ==> all[i] == front[i];
    assert all[|front|] == last;
    forall p | p in Manifests(front) ensures p in Manifests(all) {
      var i :| 0 <= i < |front| && IsManifest(front[i]) && SnapshotPrefixForObject(front[i].key) == Some(p);
      assert IsManifest(all[i]) && SnapshotPrefixForObject(all[i].key) == Some(p);
    }
  }

  /** The prefix one object adds: of a manifest its own, of anything else none. */
  method ManifestPrefix(o: ObjectInfo) returns (failed: bool, prefix: set<string>)
    ensures failed <==> !ManifestParses(o)
    ensures !failed ==>
      prefix == (if IsManifest(o) && SnapshotPrefixForObject(o.key).Some? then {SnapshotPrefixForObject(o.key).value}
                 else {})
  {
    if !HasSuffix(o.key, MANIFEST) {
      return false, {};
    }
    var found := SnapshotPrefixForObject(o.key);
    if found.None? {
      return true, {};
    }
    return false, {found.value};
  }

  /** The error names a listed manifest that belongs to no snapshot. */
  ghost predicate IsStray(e: GcError, backups: seq<ObjectInfo>) {
    e.BadBackupKey? && SnapshotPrefixForObject(e.key).None? &&
    exists o :: o in backups && o.key == e.key && HasSuffix(o.key, "/index.json.blob")
  }

  /** The error names the tag of a manifest that is listed, whose snapshot is due, and that could not be read. */
  ghost predicate IsUnread(e: GcError, snapshots: seq<Snapshot>, backups: seq<ObjectInfo>, tags: map<string, bool>,
                           now: int, days: uint64)
  {
    e.UnreadableTag? && e.key !in tags &&
    exists i :: 0 <= i < |snapshots| && NeedsTag(snapshots[i], Manifests(backups), now, days) &&
                snapshots[i].S3Prefix() + "/index.json.blob" == e.key
  }

  method FindManifests(backups: seq<ObjectInfo>) returns (failed: Option<GcError>, manifests: set<string>)
    ensures failed.None? <==> ManifestsParse(backups)
    ensures failed.None? ==> manifests == Manifests(backups)
    ensures failed.Some? ==> IsStray(failed.value, backups)
  {
    manifests := {};
    for n := 0 to |backups|
      invariant ManifestsParse(backups[..n]) && manifests == Manifests(backups[..n])
    {
      ManifestStep(backups[..n], backups[n]);
      assert backups[..n + 1] == backups[..n] + [backups[n]];
      var bad, prefix := ManifestPrefix(backups[n]);
      if bad {
        return Some(BadBackupKey(backups[n].key)), manifests;
      }
      manifests := manifests + prefix;
    }
    assert backups[..|backups|] == backups;
    failed := None;
  }

  /** One turn: the snapshot with the protection its tag gives it, or why it cannot be told. */
  method RefreshOne(s: Snapshot, manifests: set<string>, tags: map<string, bool>, now: int, days: uint64)
    returns (failed: Option<GcError>, refreshed: Snapshot)
    ensures failed.None? <==>
      SnapshotExpired(s, now, days).Ok? && (NeedsTag(s, manifests, now, days) ==> s.S3Prefix() + MANIFEST in tags)
    ensures failed.None? ==> refreshed == Refreshed(s, manifests, tags, now, days)
    ensures failed.Some? ==>
      (failed.value == RetentionOverflow && days * 86400 >= TWO_64) ||
      (failed.value == UnreadableTag(s.S3Prefix() + MANIFEST) && NeedsTag(s, manifests, now, days) &&
       s.S3Prefix() + MANIFEST !in tags)
  {
    failed, refreshed := None, s;
    match SnapshotExpired(s, now, days)
    case Err(e) => return Some(e), s;
    case Ok(expired) =>
      var name := s.S3Prefix() + MANIFEST;
      if expired && s.S3Prefix() in manifests {
        if name !in tags {
          return Some(UnreadableTag(name)), s;
        }
        refreshed := s.(isProtected := tags[name]);
      }
  }

  /** Overwrites, in place, the protection of each snapshot whose tag decides it. */
  method RefreshExpiredSnapshotProtection(snapshots: array<Snapshot>, backups: seq<ObjectInfo>,
                                          tags: map<string, bool>, now: int, days: uint64)
    returns (failed: Option<GcError>)
    modifies snapshots
    ensures failed.None? <==> Refreshable(old(snapshots[..]), backups, tags, now, days)
    ensures failed.Some? ==>
      IsStray(failed.value, backups) || (failed.value == RetentionOverflow && days * 86400 >= TWO_64) ||
      IsUnread(failed.value, old(snapshots[..]), backups, tags, now, days)
    ensures failed.None? ==> snapshots[..] == RefreshAll(old(snapshots[..]), Manifests(backups), tags, now, days)
  {
    ghost var before := snapshots[..];
    var bad, manifests := FindManifests(backups);
    if bad.Some? {
      return bad;
    }
    for n := 0 to snapshots.Length
      invariant snapshots[n..] == before[n..]
      invariant forall i :: 0 <= i < n ==> snapshots[i] == Refreshed(before[i], manifests, tags, now, days)
      invariant forall i :: 0 <= i < n ==> SnapshotExpired(before[i], now, days).Ok?
      invariant forall i :: 0 <= i < n && NeedsTag(before[i], manifests, now, days) ==>
        before[i].S3Prefix() + MANIFEST in tags
    {
      assert snapshots[n] == before[n];
      var error, refreshed := RefreshOne(snapshots[n], manifests, tags, now, days);
      if error.Some? {
        return error;
      }
      snapshots[n] := refreshed;
    }
    failed := None;
  }
}
