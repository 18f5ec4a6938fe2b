/** Exclusive bytes from one collector run to the next, with a user deleting a snapshot in between. */
module DeletedSnapshots {
  import opened Wrappers
  import opened Sums
  import opened ObjectKeys
  import opened Snapshots
  import opened Retention
  import opened GcPlan
  import opened GcPlanFacts
  import opened CollectorRun
  import opened RetentionFacts
  import opened ExclusiveBytes
  import U = UsageStats

  /** Every listed key belongs to some snapshot, as it does wherever a plan was made. */
  predicate KeysParse(backups: seq<ObjectInfo>) {
    forall o :: o in backups ==> SnapshotPrefixForObject(o.key).Some?
  }

  lemma PlannedKeysParse(inv: Inventory, tags: map<string, bool>, now: int, days: uint64, grace: int)
    requires Plannable(inv, tags, now, days, grace)
    ensures KeysParse(inv.backups)
  {
    var current := Current(inv, tags, now, days);
    forall o | o in inv.backups ensures SnapshotPrefixForObject(o.key).Some? {
      ScheduledExactly(inv.backups, ExpiredPrefixes(current, now, days), inv.loaded, o);
    }
  }

  lemma DirIsAPrefix(backups: seq<ObjectInfo>, dir: string)
    requires dir in Dirs(backups)
    ensures IsPrefix(BACKUPS + dir)
  {
    DirsAreKnown(backups);
    var i :| 0 <= i < |backups| && InDir(backups[i], dir);
    assert dir != "" && '/' !in dir;
  }

  lemma OthersAreKept(backups: seq<ObjectInfo>, prefix: string, other: string)
    requires IsPrefix(prefix) && KeysParse(backups) && other != prefix
    ensures AllKept(backups, KeysBelow(backups, prefix), other)
  {
    var keys := KeysBelow(backups, prefix);
    forall o | o in backups && SnapshotPrefixForObject(o.key) == Some(other) ensures o.key !in keys {
      BelowIsBelonging(o.key, prefix);
    }
  }

  lemma OtherDirsAreKept(backups: seq<ObjectInfo>, dir: string, other: string)
    requires dir in Dirs(backups) && KeysParse(backups) && other != dir
    ensures forall o :: o in backups && InDir(o, other) ==> o.key !in KeysBelow(backups, BACKUPS + dir)
  {
    if BACKUPS + other == BACKUPS + dir {
      SamePrefixTail(BACKUPS, other, dir);
    }
    DirIsAPrefix(backups, dir);
    OthersAreKept(backups, BACKUPS + dir, BACKUPS + other);
    forall o | o in backups && InDir(o, other) ensures o.key !in KeysBelow(backups, BACKUPS + dir) {
      DirIsPrefix(o.key);
    }
  }

  lemma OthersStayListed(backups: seq<ObjectInfo>, keys: set<string>, other: string)
    requires AllWellFormed(backups)
    requires forall o :: o in backups && InDir(o, other) ==> o.key !in keys
    ensures other in Dirs(Without(backups, keys)) <==> other in Dirs(backups)
  {
    var rest := Without(backups, keys);
    SweptDirs(backups, keys);
    DirsAreKnown(backups);
    DirsAreKnown(rest);
    if other in Dirs(backups) {
      var i :| 0 <= i < |backups| && InDir(backups[i], other);
      WithoutExactly(backups, keys, backups[i]);
      var j :| 0 <= j < |rest| && rest[j] == backups[i];
      assert InDir(rest[j], other);
    }
  }

  /** A snapshot that prints another prefix stays listed and keeps its protection. */
  lemma OthersReadTheSame(backups: seq<ObjectInfo>, tags: map<string, bool>, dir: string, d: string)
    requires AllWellFormed(backups) && dir in Dirs(backups) && KeysParse(backups) && d != dir
    requires IdentityOf(d).Some? && Printed(d) != BACKUPS + dir
    ensures var rest := Without(backups, KeysBelow(backups, BACKUPS + dir));
      (d in Dirs(rest) <==> d in Dirs(backups)) && (Shielded(rest, tags, d) <==> Shielded(backups, tags, d))
  {
    var keys := KeysBelow(backups, BACKUPS + dir);
    OtherDirsAreKept(backups, dir, d);
    OthersStayListed(backups, keys, d);
    TagsWithout(backups, keys, d);
    DirIsAPrefix(backups, dir);
    OthersAreKept(backups, BACKUPS + dir, Printed(d));
    ManifestIffKept(backups, keys, Printed(d));
  }

  /** Whoever condemns another prefix is the same before and after. */
  lemma CondemnsTheSame(inv: Inventory, tags: map<string, bool>, now: int, days: uint64, dir: string, p: string,
                        d: string)
    requires AllWellFormed(inv.backups) && dir in Dirs(inv.backups) && KeysParse(inv.backups)
    requires IdentityOf(dir).Some? && Canonical(TimeText(dir)) && p != BACKUPS + dir
    ensures Condemns(Deleted(inv, BACKUPS + dir), tags, now, days, p, d) <==> Condemns(inv, tags, now, days, p, d)
  {
    if IdentityOf(d).Some? && Printed(d) == p {
      PrintsIffSame(dir, dir);
      OthersReadTheSame(inv.backups, tags, dir, d);
    }
  }

  lemma SameExpire(inv: Inventory, tags: map<string, bool>, now: int, days: uint64, dir: string)
    requires AllWellFormed(inv.backups) && dir in Dirs(inv.backups) && KeysParse(inv.backups)
    requires IdentityOf(dir).Some? && Canonical(TimeText(dir)) && !RetentionOverflows(days)
    requires Refreshable(AllSnapshots(inv.backups), inv.backups, tags, now, days)
    ensures var after := Deleted(inv, BACKUPS + dir);
      && AllWellFormed(after.backups)
      && SameButFor(ExpiredPrefixes(Current(after, tags, now, days), now, days),
                    ExpiredPrefixes(Current(inv, tags, now, days), now, days), BACKUPS + dir)
  {
    var after := Deleted(inv, BACKUPS + dir);
    RestIsRefreshable(inv.backups, KeysBelow(inv.backups, BACKUPS + dir), tags, now, days);
    forall p | p != BACKUPS + dir
      ensures p in ExpiredPrefixes(Current(after, tags, now, days), now, days) <==>
        p in ExpiredPrefixes(Current(inv, tags, now, days), now, days)
    {
      ExpiresIffCondemned(inv, tags, now, days, p);
      ExpiresIffCondemned(after, tags, now, days, p);
      forall d ensures Condemns(after, tags, now, days, p, d) <==> Condemns(inv, tags, now, days, p, d) {
        CondemnsTheSame(inv, tags, now, days, dir, p, d);
      }
    }
  }

  /**
   * Exclusive means freed, from one plan to the next. After a plan a user
   * deletes a snapshot, by the prefix it prints, and the collector runs again
   * at the same instant without grace: unless that was the last snapshot, it
   * frees of the chunks reported as referenced exactly the exclusive bytes.
   */
  lemma DeletingListedFrees(inv: Inventory, tags: map<string, bool>, now: int, days: uint64, grace: int,
                                    dir: string)
    requires Plannable(inv, tags, now, days, grace) && ListedOnce(inv.chunks)
    requires dir in Dirs(inv.backups) && IdentityOf(dir).Some? && Canonical(TimeText(dir))
    ensures Printed(dir) == BACKUPS + dir
    ensures var after := Deleted(inv, Printed(dir));
      AllWellFormed(after.backups) &&
      (AllSnapshots(after.backups) != [] ==>
        Plannable(after, tags, now, days, 0) &&
        var plan, next := PlanOf(inv, tags, now, days, grace), PlanOf(after, tags, now, days, 0);
        BytesOf(next.chunkObjects, plan.knownChunks.Keys) ==
          U.Exclusive(Printed(dir), U.OwnersOf(plan.knownChunks), plan.chunkSizes))
  {
    var after := Deleted(inv, BACKUPS + dir);
    PrintsIffSame(dir, dir);
    PlannedKeysParse(inv, tags, now, days, grace);
    PlannableDays(inv, tags, now, days);
    RestIsRefreshable(inv.backups, KeysBelow(inv.backups, BACKUPS + dir), tags, now, days);
    SameExpire(inv, tags, now, days, dir);
    DirIsAPrefix(inv.backups, dir);
    ExclusiveIsFreed(Current(inv, tags, now, days), Current(after, tags, now, days), inv, now, days, grace,
                     BACKUPS + dir);
  }

  lemma {:induction false} RestIsListedOnce(objects: seq<ObjectInfo>, keys: set<string>)
    requires ListedOnce(objects)
    ensures ListedOnce(Without(objects, keys))
    decreases |objects|
  {
    if objects != [] {
      var front, last := objects[..|objects| - 1], objects[|objects| - 1];
      RestIsListedOnce(front, keys);
      var rest := Without(front, keys);
      forall i | 0 <= i < |rest| ensures rest[i].key != last.key {
        WithoutExactly(front, keys, rest[i]);
        assert rest[i] in front;
      }
    }
  }

  /**
   * Exclusive means freed, from one complete run to the next. The collector
   * plans, reports and sweeps; a user deletes one of the snapshots that are
   * left, by the prefix it prints; the collector runs again at the same instant
   * without grace. Unless that was the last snapshot, the second run frees of
   * the chunks the first one reported exactly the bytes it called exclusive.
   */
  lemma DeletingFreesExclusiveBytes(inv: Inventory, tags: map<string, bool>, now: int, days: uint64, grace: int,
                                    dir: string)
    requires Plannable(inv, tags, now, days, grace) && ListedOnce(inv.chunks)
    requires dir in Dirs(Swept(inv, PlanOf(inv, tags, now, days, grace)).backups)
    requires IdentityOf(dir).Some? && Canonical(TimeText(dir))
    ensures var plan := PlanOf(inv, tags, now, days, grace);
      var after := Deleted(Swept(inv, plan), Printed(dir));
      AllWellFormed(after.backups) &&
      (AllSnapshots(after.backups) != [] ==>
        Plannable(after, tags, now, days, 0) &&
        BytesOf(PlanOf(after, tags, now, days, 0).chunkObjects, plan.knownChunks.Keys) ==
          U.Exclusive(Printed(dir), U.OwnersOf(plan.knownChunks), plan.chunkSizes))
  {
    var plan := PlanOf(inv, tags, now, days, grace);
    var swept := Swept(inv, plan);
    OnceIsDistinct(inv.chunks);
    SecondRunDeletesNothing(inv, tags, now, days, grace);
    DirsParse(swept.backups);
    OneSnapshotPerDir(swept.backups, Dirs(swept.backups));
    RestIsListedOnce(inv.chunks, KeysOf(plan.chunkObjects));
    DeletingListedFrees(swept, tags, now, days, grace, dir);
  }

  lemma OnceIsDistinct(objects: seq<ObjectInfo>)
    requires ListedOnce(objects)
    ensures DistinctKeys(objects)
  {
    forall o, o' | o in objects && o' in objects && o.key == o'.key ensures o == o' {
      var i :| 0 <= i < |objects| && objects[i] == o;
      var j :| 0 <= j < |objects| && objects[j] == o';
      assert i == j;
    }
  }
}
