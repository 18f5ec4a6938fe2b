/** Which objects a run schedules, over unbounded integers and for every spelling of the keys. */
module RetentionFacts {
  import opened Wrappers
  import opened Sums
  import opened ObjectKeys
  import opened Snapshots
  import opened SnapshotFacts
  import opened Retention
  import opened GcPlan
  import opened GcPlanFacts
  import opened CollectorRun

  // ------------------------------------------------- raw and printed prefixes

  /** The prefix a listed snapshot prints for itself. */
  function Printed(dir: string): string
    requires IdentityOf(dir).Some?
  {
    Blank(dir).S3Prefix()
  }

  /** The timestamp as the key spells it. */
  function TimeText(dir: string): string
    requires IdentityOf(dir).Some?
  {
    Split(dir, '|')[1]
  }

  lemma FormatParses(n: uint64)
    ensures ParseUint(FormatUint(n)) == Some(n)
  {
    FormatIsCanonical(n);
  }

  lemma NoBarsInNumbers(n: nat)
    ensures '|' !in FormatUint(n)
  {
    FormatIsCanonical(n);
  }

  /** What a printed prefix says when it is read as a directory. */
  lemma PrintedReadsBack(d: string, dir: string)
    requires IdentityOf(d).Some? && Printed(d) == BACKUPS + dir
    ensures IdentityOf(dir) == IdentityOf(d) && Canonical(TimeText(dir))
  {
    var who := IdentityOf(d).value;
    var time := FormatUint(who.time);
    DirIsBars(d);
    PrefixIsBars(Blank(d));
    SamePrefixTail(BACKUPS, Bars(who.id, time, who.kind), dir);
    NoBarsInNumbers(who.time);
    SplitBars(who.id, time, who.kind);
    FormatParses(who.time);
    FormatIsCanonical(who.time);
  }

  /**
   * A listed snapshot prints the raw prefix of a directory exactly when they
   * say the same, and the directory spells its timestamp canonically.
   */
  lemma PrintsIffSame(d: string, dir: string)
    requires IdentityOf(d).Some? && IdentityOf(dir).Some?
    ensures Printed(d) == BACKUPS + dir <==> IdentityOf(d) == IdentityOf(dir) && Canonical(TimeText(dir))
  {
    if Printed(d) == BACKUPS + dir {
      PrintedReadsBack(d, dir);
    }
    if IdentityOf(d) == IdentityOf(dir) && Canonical(TimeText(dir)) {
      EmptySnapshot([], dir);
      PrefixGivesDirBackIffCanonical([], dir);
    }
  }

  // ------------------------------------------------------------------ manifests

  /** Some listed key of the directory ends in the name of a manifest; the listing says nothing else about it. */
  ghost predicate HasManifest(backups: seq<ObjectInfo>, dir: string) {
    exists o, file, front :: o in backups && o.key == FileKey(dir, file) && o.key == front + "/index.json.blob"
  }

  lemma ManifestIffListed(backups: seq<ObjectInfo>, dir: string)
    requires IsDir(dir)
    ensures BACKUPS + dir in Manifests(backups) <==> HasManifest(backups, dir)
  {
    if BACKUPS + dir in Manifests(backups) {
      var i :| 0 <= i < |backups| && IsManifest(backups[i]) &&
        SnapshotPrefixForObject(backups[i].key) == Some(BACKUPS + dir);
      PrefixIsSpelling(backups[i].key, dir);
      SuffixIsEnd(backups[i].key, "/index.json.blob");
      assert backups[i] in backups;
    }
    if o, file, front :| o in backups && o.key == FileKey(dir, file) && o.key == front + "/index.json.blob" {
      var i :| 0 <= i < |backups| && backups[i] == o;
      PrefixIsSpelling(o.key, dir);
      SuffixIsEnd(o.key, "/index.json.blob");
      assert IsManifest(backups[i]) && SnapshotPrefixForObject(backups[i].key) == Some(BACKUPS + dir);
    }
  }

  lemma ManifestKey(dir: string)
    ensures BACKUPS + dir + MANIFEST == FileKey(dir, "index.json.blob")
  {
  }

  /** The manifest itself is such a key. */
  lemma ManifestIsOne(backups: seq<ObjectInfo>, o: ObjectInfo, dir: string)
    requires o in backups && o.key == FileKey(dir, "index.json.blob")
    ensures HasManifest(backups, dir)
  {
    ManifestKey(dir);
    assert o.key == (BACKUPS + dir) + "/index.json.blob";
  }

  lemma DirIsSpelled(backups: seq<ObjectInfo>, o: ObjectInfo, dir: string)
    requires InDir(o, dir)
    ensures IsDir(dir)
  {
    PathIsSpelling(o.key, dir, PathOf(o.key).value.file);
  }

  // ------------------------------------------------------------ what is dropped

  predicate Due(dir: string, now: int, days: uint64)
    requires IdentityOf(dir).Some?
  {
    IdentityOf(dir).value.time + 86400 * days < now / 1_000_000_000
  }

  predicate TagSays(tags: map<string, bool>, prefix: string, value: bool) {
    prefix + MANIFEST in tags && tags[prefix + MANIFEST] == value
  }

  /** What protects a listed snapshot: the tag of the manifest it prints, or the listed tag while there is none. */
  predicate Shielded(backups: seq<ObjectInfo>, tags: map<string, bool>, dir: string)
    requires IdentityOf(dir).Some?
  {
    if Printed(dir) in Manifests(backups) then TagSays(tags, Printed(dir), true) else TaggedProtected(backups, dir)
  }

  lemma DroppedIff(backups: seq<ObjectInfo>, tags: map<string, bool>, now: int, days: uint64, dir: string)
    requires IdentityOf(dir).Some? && !RetentionOverflows(days)
    requires var s := SnapshotOf(backups, dir);
      NeedsTag(s, Manifests(backups), now, days) ==> s.S3Prefix() + MANIFEST in tags
    ensures var s := Refreshed(SnapshotOf(backups, dir), Manifests(backups), tags, now, days);
      s.S3Prefix() == Printed(dir) && (Dropped(s, now, days) <==> Due(dir, now, days) && !Shielded(backups, tags, dir))
  {
    var s := SnapshotOf(backups, dir);
    ExpiryIsExact(s, now, days);
    ExpiryIsExact(Refreshed(s, Manifests(backups), tags, now, days), now, days);
    assert s.S3Prefix() == Printed(dir);
  }

  lemma CurrentDropped(inv: Inventory, tags: map<string, bool>, now: int, days: uint64, i: nat)
    requires AllWellFormed(inv.backups) && i < |Dirs(inv.backups)| && !RetentionOverflows(days)
    requires Refreshable(AllSnapshots(inv.backups), inv.backups, tags, now, days)
    ensures var dir, current := Dirs(inv.backups)[i], Current(inv, tags, now, days);
      && IdentityOf(dir).Some? && i < |current| && current[i].S3Prefix() == Printed(dir)
      && (Dropped(current[i], now, days) <==> Due(dir, now, days) && !Shielded(inv.backups, tags, dir))
  {
    DirsParse(inv.backups);
    OneSnapshotPerDir(inv.backups, Dirs(inv.backups));
    CurrentAt(inv, tags, now, days, i);
    assert AllSnapshots(inv.backups)[i] == SnapshotOf(inv.backups, Dirs(inv.backups)[i]);
    DroppedIff(inv.backups, tags, now, days, Dirs(inv.backups)[i]);
  }

  /** `d` is listed, prints `prefix`, is past its retention, and nothing protects it. */
  predicate Condemns(inv: Inventory, tags: map<string, bool>, now: int, days: uint64, prefix: string, d: string) {
    && d in Dirs(inv.backups) && IdentityOf(d).Some? && Printed(d) == prefix
    && Due(d, now, days) && !Shielded(inv.backups, tags, d)
  }

  /** A prefix expires exactly when some listed snapshot that prints it is dropped. */
  lemma ExpiresIffCondemned(inv: Inventory, tags: map<string, bool>, now: int, days: uint64, prefix: string)
    requires AllWellFormed(inv.backups) && !RetentionOverflows(days)
    requires Refreshable(AllSnapshots(inv.backups), inv.backups, tags, now, days)
    ensures prefix in ExpiredPrefixes(Current(inv, tags, now, days), now, days) <==>
      exists d :: Condemns(inv, tags, now, days, prefix, d)
  {
    var dirs, current := Dirs(inv.backups), Current(inv, tags, now, days);
    DirsParse(inv.backups);
    OneSnapshotPerDir(inv.backups, dirs);
    if prefix in ExpiredPrefixes(current, now, days) {
      var i :| 0 <= i < |current| && Dropped(current[i], now, days) && current[i].S3Prefix() == prefix;
      assert |current| == |dirs|;
      CurrentDropped(inv, tags, now, days, i);
      assert Condemns(inv, tags, now, days, prefix, dirs[i]);
    }
    if d :| Condemns(inv, tags, now, days, prefix, d) {
      var i :| 0 <= i < |dirs| && dirs[i] == d;
      CurrentDropped(inv, tags, now, days, i);
    }
  }

  /** What the refresh needs: a key to attribute each manifest to, and the tag of each manifest that is due. */
  predicate TagsSuffice(backups: seq<ObjectInfo>, tags: map<string, bool>, now: int, days: uint64) {
    && (forall o :: o in backups && HasSuffix(o.key, "/index.json.blob") ==> SnapshotPrefixForObject(o.key).Some?)
    && DueAreTagged(backups, tags, now, days)
  }

  lemma ManifestsParseIff(backups: seq<ObjectInfo>)
    ensures ManifestsParse(backups) <==>
      forall o :: o in backups && HasSuffix(o.key, "/index.json.blob") ==> SnapshotPrefixForObject(o.key).Some?
  {
    if ManifestsParse(backups) {
      forall o | o in backups && HasSuffix(o.key, "/index.json.blob") ensures SnapshotPrefixForObject(o.key).Some? {
        var i :| 0 <= i < |backups| && backups[i] == o;
        assert ManifestParses(backups[i]);
      }
    }
  }

  lemma DueNeedsTag(backups: seq<ObjectInfo>, now: int, days: uint64, d: string)
    requires IdentityOf(d).Some? && !RetentionOverflows(days)
    ensures SnapshotOf(backups, d).S3Prefix() == Printed(d)
    ensures SnapshotExpired(SnapshotOf(backups, d), now, days).Ok?
    ensures NeedsTag(SnapshotOf(backups, d), Manifests(backups), now, days) <==>
      Due(d, now, days) && Printed(d) in Manifests(backups)
  {
    ExpiryIsExact(SnapshotOf(backups, d), now, days);
  }

  /** The tags are there, snapshot by snapshot. */
  predicate AllTagged(snapshots: seq<Snapshot>, backups: seq<ObjectInfo>, tags: map<string, bool>, now: int,
                      days: uint64)
  {
    forall i :: 0 <= i < |snapshots| ==>
      (NeedsTag(snapshots[i], Manifests(backups), now, days) ==> snapshots[i].S3Prefix() + MANIFEST in tags)
  }

  predicate DueAreTagged(backups: seq<ObjectInfo>, tags: map<string, bool>, now: int, days: uint64) {
    forall d :: d in Dirs(backups) && IdentityOf(d).Some? && Due(d, now, days) && Printed(d) in Manifests(backups) ==>
      Printed(d) + "/index.json.blob" in tags
  }

  lemma TaggedIffDueAreTagged(backups: seq<ObjectInfo>, tags: map<string, bool>, now: int, days: uint64)
    requires AllWellFormed(backups) && !RetentionOverflows(days)
    ensures AllTagged(AllSnapshots(backups), backups, tags, now, days) <==> DueAreTagged(backups, tags, now, days)
  {
    var snapshots, dirs := AllSnapshots(backups), Dirs(backups);
    DirsParse(backups);
    OneSnapshotPerDir(backups, dirs);
    forall i | 0 <= i < |dirs|
      ensures snapshots[i].S3Prefix() == Printed(dirs[i])
      ensures NeedsTag(snapshots[i], Manifests(backups), now, days) <==>
        Due(dirs[i], now, days) && Printed(dirs[i]) in Manifests(backups)
    {
      DueNeedsTag(backups, now, days, dirs[i]);
    }
    if AllTagged(snapshots, backups, tags, now, days) {
      forall d | d in dirs && IdentityOf(d).Some? && Due(d, now, days) && Printed(d) in Manifests(backups)
        ensures Printed(d) + "/index.json.blob" in tags
      {
        var i :| 0 <= i < |dirs| && dirs[i] == d;
        assert NeedsTag(snapshots[i], Manifests(backups), now, days);
      }
    }
  }

  /**
   * What the refresh needs and no more: a retention that does not overflow, a
   * snapshot for each manifest, and the tag of every manifest whose snapshot is
   * due. No tag of any other snapshot has to be readable.
   */
  lemma RefreshesIff(backups: seq<ObjectInfo>, tags: map<string, bool>, now: int, days: uint64)
    requires AllWellFormed(backups) && AllSnapshots(backups) != []
    ensures Refreshable(AllSnapshots(backups), backups, tags, now, days) <==>
      86400 * days < 0x1_0000_0000_0000_0000 && TagsSuffice(backups, tags, now, days)
  {
    ManifestsParseIff(backups);
    RefreshableParts(AllSnapshots(backups), backups, tags, now, days);
    ExpiryIsExact(AllSnapshots(backups)[0], now, days);
    if !RetentionOverflows(days) {
      TaggedIffDueAreTagged(backups, tags, now, days);
    }
  }

  lemma RefreshableParts(snapshots: seq<Snapshot>, backups: seq<ObjectInfo>, tags: map<string, bool>, now: int,
                         days: uint64)
    requires snapshots != []
    ensures Refreshable(snapshots, backups, tags, now, days) <==>
      ManifestsParse(backups) && !RetentionOverflows(days) && AllTagged(snapshots, backups, tags, now, days)
  {
    assert SnapshotExpired(snapshots[0], now, days).Ok? <==> !RetentionOverflows(days);
  }

  // ------------------------------------------------------------------- theorems

  lemma ScheduledIffExpires(inv: Inventory, tags: map<string, bool>, now: int, days: uint64, grace: int,
                            o: ObjectInfo, dir: string)
    requires Plannable(inv, tags, now, days, grace) && o in inv.backups && InDir(o, dir)
    ensures IdentityOf(dir).Some? && dir in Dirs(inv.backups)
    ensures o in PlanOf(inv, tags, now, days, grace).backupObjects <==>
      BACKUPS + dir in ExpiredPrefixes(Current(inv, tags, now, days), now, days)
  {
    DirsAreKnown(inv.backups);
    var i :| 0 <= i < |inv.backups| && inv.backups[i] == o;
    assert InDir(inv.backups[i], dir) && WellFormed(o.key);
    DirIsPrefix(o.key);
    PlanIsAPartition(Current(inv, tags, now, days), inv, now, days, grace);
  }

  /** A listed snapshot that says what `dir` says, and that nothing protects. */
  predicate Exposed(inv: Inventory, tags: map<string, bool>, dir: string, d: string) {
    d in Dirs(inv.backups) && IdentityOf(d).Some? && IdentityOf(d) == IdentityOf(dir) && !Shielded(inv.backups, tags, d)
  }

  /**
   * Retention, exactly and for every listing a run accepts. An object is
   * scheduled when its directory spells its timestamp canonically, is past its
   * retention, and some listed snapshot of the same identity is unprotected.
   */
  lemma RetentionIsExact(inv: Inventory, tags: map<string, bool>, now: int, days: uint64, grace: int,
                         o: ObjectInfo, dir: string)
    requires Plannable(inv, tags, now, days, grace) && o in inv.backups && InDir(o, dir)
    ensures IdentityOf(dir).Some?
    ensures o in PlanOf(inv, tags, now, days, grace).backupObjects <==>
      Canonical(TimeText(dir)) && Due(dir, now, days) && exists d :: Exposed(inv, tags, dir, d)
  {
    ScheduledIffExpires(inv, tags, now, days, grace, o, dir);
    PlannableDays(inv, tags, now, days);
    ExpiresIffCondemned(inv, tags, now, days, BACKUPS + dir);
    if d :| Condemns(inv, tags, now, days, BACKUPS + dir, d) {
      PrintsIffSame(d, dir);
      assert Exposed(inv, tags, dir, d);
    }
    if Canonical(TimeText(dir)) && Due(dir, now, days) {
      if d :| Exposed(inv, tags, dir, d) {
        PrintsIffSame(d, dir);
        assert Condemns(inv, tags, now, days, BACKUPS + dir, d);
      }
    }
  }

  /**
   * What a user can rely on whatever else is listed: an object is scheduled
   * only past its retention, and if its snapshot has a manifest, only after
   * the tag of that manifest was read and did not protect it.
   */
  lemma ScheduledIsDueAndUntagged(inv: Inventory, tags: map<string, bool>, now: int, days: uint64, grace: int,
                                  o: ObjectInfo, dir: string)
    requires Plannable(inv, tags, now, days, grace) && o in inv.backups && InDir(o, dir)
    requires o in PlanOf(inv, tags, now, days, grace).backupObjects
    ensures IdentityOf(dir).Some? && Due(dir, now, days)
    ensures HasManifest(inv.backups, dir) ==>
      FileKey(dir, "index.json.blob") in tags && !tags[FileKey(dir, "index.json.blob")]
  {
    DirIsSpelled(inv.backups, o, dir);
    ManifestIffListed(inv.backups, dir);
    ManifestKey(dir);
    ScheduledIffExpires(inv, tags, now, days, grace, o, dir);
    PlannableDays(inv, tags, now, days);
    ExpiresIffCondemned(inv, tags, now, days, BACKUPS + dir);
    var d :| Condemns(inv, tags, now, days, BACKUPS + dir, d);
    PrintsIffSame(d, dir);
    if BACKUPS + dir in Manifests(inv.backups) {
      TagWasRead(inv, tags, now, days, d);
    }
  }

  /** The tag of a due snapshot with a manifest is read, or there is no plan. */
  lemma TagWasRead(inv: Inventory, tags: map<string, bool>, now: int, days: uint64, d: string)
    requires AllWellFormed(inv.backups) && d in Dirs(inv.backups) && IdentityOf(d).Some?
    requires Refreshable(AllSnapshots(inv.backups), inv.backups, tags, now, days)
    requires Due(d, now, days) && Printed(d) in Manifests(inv.backups) && !RetentionOverflows(days)
    ensures Printed(d) + MANIFEST in tags
  {
    var i :| 0 <= i < |Dirs(inv.backups)| && Dirs(inv.backups)[i] == d;
    DirsParse(inv.backups);
    OneSnapshotPerDir(inv.backups, Dirs(inv.backups));
    var s := SnapshotOf(inv.backups, d);
    assert AllSnapshots(inv.backups)[i] == s && s.S3Prefix() == Printed(d);
    ExpiryIsExact(s, now, days);
  }

  /** No other listed snapshot says what `dir` says. */
  predicate IsAlone(backups: seq<ObjectInfo>, dir: string) {
    forall d :: d in Dirs(backups) && IdentityOf(d) == IdentityOf(dir) ==> d == dir
  }

  /**
   * The protection a snapshot is listed with: the tag of its own manifest, or
   * while it has none, the tag of any of its objects.
   */
  ghost predicate Protected(backups: seq<ObjectInfo>, tags: map<string, bool>, dir: string) {
    if HasManifest(backups, dir)
    then FileKey(dir, "index.json.blob") in tags && tags[FileKey(dir, "index.json.blob")]
    else exists o, file :: o in backups && file != "" && o.key == FileKey(dir, file) && o.protectedTag
  }

  lemma ProtectedIsShielded(backups: seq<ObjectInfo>, tags: map<string, bool>, dir: string)
    requires IsDir(dir)
    ensures Protected(backups, tags, dir) <==>
      if BACKUPS + dir in Manifests(backups) then TagSays(tags, BACKUPS + dir, true) else TaggedProtected(backups, dir)
  {
    ManifestIffListed(backups, dir);
    ManifestKey(dir);
    TagIsListed(backups, dir);
    if o :| o in backups && InDir(o, dir) && o.protectedTag {
      PathIsSpelling(o.key, dir, PathOf(o.key).value.file);
    }
    if o, file :| o in backups && file != "" && o.key == FileKey(dir, file) && o.protectedTag {
      PathIsSpelling(o.key, dir, file);
    }
  }

  /** For a canonical directory that is alone, it is its own age and its own protection that decide. */
  lemma RetentionOfOne(inv: Inventory, tags: map<string, bool>, now: int, days: uint64, grace: int,
                       o: ObjectInfo, dir: string)
    requires Plannable(inv, tags, now, days, grace) && o in inv.backups && InDir(o, dir)
    requires IdentityOf(dir).Some? && Canonical(TimeText(dir)) && IsAlone(inv.backups, dir)
    ensures o in PlanOf(inv, tags, now, days, grace).backupObjects <==>
      Due(dir, now, days) && !Protected(inv.backups, tags, dir)
  {
    RetentionIsExact(inv, tags, now, days, grace, o, dir);
    ScheduledIffExpires(inv, tags, now, days, grace, o, dir);
    PrintsIffSame(dir, dir);
    DirIsSpelled(inv.backups, o, dir);
    ProtectedIsShielded(inv.backups, tags, dir);
    if !Protected(inv.backups, tags, dir) {
      assert Exposed(inv, tags, dir, dir);
    }
  }
}
