/** How a second spelling of a timestamp defeats the listed protection of a snapshot. */
module RetentionLimits {
  import opened Wrappers
  import opened Sums
  import opened ObjectKeys
  import opened Snapshots
  import opened SnapshotFacts
  import opened Retention
  import opened GcPlan
  import opened GcPlanFacts
  import opened CollectorRun
  import opened RetentionFacts

  function KeyOf(dir: string, file: string): string {
    BACKUPS + (dir + ['/'] + file)
  }

  /** A snapshot protected by its listed tag, without a manifest, and one that spells the same timestamp otherwise. */
  function Listing(dir: string, alias: string): seq<ObjectInfo> {
    [ObjectInfo(KeyOf(dir, "p"), 1, 0, true), ObjectInfo(KeyOf(alias, "q"), 1, 0, false)]
  }

  lemma KeyReads(dir: string, file: string)
    requires IsDir(dir) && file != ""
    ensures PathOf(KeyOf(dir, file)) == Some(ObjectPath(dir, file))
    ensures SnapshotPrefixForObject(KeyOf(dir, file)) == Some(BACKUPS + dir)
  {
    FileKeySplits(dir, file);
    PathIsSpelling(KeyOf(dir, file), dir, file);
    DirIsPrefix(KeyOf(dir, file));
  }

  /** Neither an index nor a manifest. */
  lemma KeyIsPlain(dir: string, file: string)
    requires file == "p" || file == "q"
    ensures !IsIndex(KeyOf(dir, file)) && !HasSuffix(KeyOf(dir, file), MANIFEST)
  {
    assert KeyOf(dir, file)[|KeyOf(dir, file)| - 1] == file[0];
  }

  predicate Aliases(dir: string, alias: string) {
    && dir != alias && dir != "" && alias != "" && '/' !in dir && '/' !in alias
    && IdentityOf(dir).Some? && IdentityOf(alias) == IdentityOf(dir)
  }

  lemma ListedDirs(dir: string, alias: string)
    requires Aliases(dir, alias)
    ensures AllWellFormed(Listing(dir, alias)) && Dirs(Listing(dir, alias)) == [dir, alias]
    ensures InDir(Listing(dir, alias)[0], dir) && InDir(Listing(dir, alias)[1], alias)
  {
    var all := Listing(dir, alias);
    KeyReads(dir, "p");
    KeyReads(alias, "q");
    assert all[..1] == [all[0]];
    assert [all[0]][..0] == [];
    assert Dirs([all[0]]) == [dir];
  }

  lemma NoManifests(dir: string, alias: string)
    ensures Manifests(Listing(dir, alias)) == {}
  {
    KeyIsPlain(dir, "p");
    KeyIsPlain(alias, "q");
  }

  lemma AliasIsUnprotected(dir: string, alias: string)
    requires Aliases(dir, alias)
    ensures TaggedProtected(Listing(dir, alias), dir) && !TaggedProtected(Listing(dir, alias), alias)
  {
    var all := Listing(dir, alias);
    ListedDirs(dir, alias);
    assert all[..1] == [all[0]];
    assert [all[0]][..0] == [];
    assert !InDir(all[0], alias);
    assert !TaggedProtected([all[0]], alias);
    assert TaggedProtected([all[0]], dir);
  }

  function AliasInventory(dir: string, alias: string): Inventory {
    Inventory(Listing(dir, alias), [], [], map[], map[])
  }

  lemma AliasManifestsParse(dir: string, alias: string)
    ensures ManifestsParse(Listing(dir, alias))
  {
    KeyIsPlain(dir, "p");
    KeyIsPlain(alias, "q");
  }

  lemma NothingNeedsATag(snapshots: seq<Snapshot>, backups: seq<ObjectInfo>, now: int, days: uint64)
    requires ManifestsParse(backups) && Manifests(backups) == {} && !RetentionOverflows(days)
    ensures Refreshable(snapshots, backups, map[], now, days)
  {
  }

  lemma AliasIsRefreshable(dir: string, alias: string, now: int, days: uint64)
    requires Aliases(dir, alias) && !RetentionOverflows(days)
    ensures var backups := Listing(dir, alias);
      && AllWellFormed(backups) && AllSnapshots(backups) != []
      && Refreshable(AllSnapshots(backups), backups, map[], now, days)
  {
    var backups := Listing(dir, alias);
    ListedDirs(dir, alias);
    OneSnapshotPerDir(backups, Dirs(backups));
    AliasManifestsParse(dir, alias);
    NoManifests(dir, alias);
    NothingNeedsATag(AllSnapshots(backups), backups, now, days);
  }

  lemma AliasScans(dir: string, alias: string, expired: set<string>)
    requires Aliases(dir, alias)
    ensures ScanBackups(Listing(dir, alias), expired, map[]).Ok?
  {
    KeyReads(dir, "p");
    KeyReads(alias, "q");
    KeyIsPlain(dir, "p");
    KeyIsPlain(alias, "q");
    ScanIsOk(Listing(dir, alias), expired, map[]);
  }

  lemma AliasIsPlannable(dir: string, alias: string, now: int, days: uint64)
    requires Aliases(dir, alias) && !RetentionOverflows(days)
    ensures Plannable(AliasInventory(dir, alias), map[], now, days, 0)
  {
    AliasIsRefreshable(dir, alias, now, days);
    AliasScans(dir, alias, ExpiredPrefixes(Current(AliasInventory(dir, alias), map[], now, days), now, days));
  }

  lemma DirIsProtected(dir: string, alias: string)
    requires Aliases(dir, alias)
    ensures Protected(Listing(dir, alias), map[], dir)
  {
    AliasIsUnprotected(dir, alias);
    NoManifests(dir, alias);
    ProtectedIsShielded(Listing(dir, alias), map[], dir);
  }

  lemma AliasIsExposed(dir: string, alias: string)
    requires Aliases(dir, alias)
    ensures Exposed(AliasInventory(dir, alias), map[], dir, alias)
  {
    ListedDirs(dir, alias);
    NoManifests(dir, alias);
    AliasIsUnprotected(dir, alias);
    assert Dirs(Listing(dir, alias))[1] == alias;
  }

  /**
   * The listed tag of a canonical snapshot does not protect it from an
   * unprotected snapshot whose key spells the same timestamp otherwise.
   */
  lemma AliasDefeatsProtection(dir: string, alias: string, now: int, days: uint64)
    requires Aliases(dir, alias) && !RetentionOverflows(days) && Canonical(TimeText(dir)) && Due(dir, now, days)
    ensures var inv := AliasInventory(dir, alias);
      && Plannable(inv, map[], now, days, 0) && Protected(inv.backups, map[], dir)
      && inv.backups[0] in PlanOf(inv, map[], now, days, 0).backupObjects
  {
    var inv := AliasInventory(dir, alias);
    AliasIsPlannable(dir, alias, now, days);
    ListedDirs(dir, alias);
    DirIsProtected(dir, alias);
    AliasIsExposed(dir, alias);
    RetentionIsExact(inv, map[], now, days, 0, inv.backups[0], dir);
  }

  lemma OneMoreDigit(front: string, c: char)
    requires AllDigits(front) && IsDigit(c)
    ensures AllDigits(front + [c]) && DigitsValue(front + [c]) == 10 * DigitsValue(front) + (c - '0') as nat
  {
    assert (front + [c])[..|front|] == front;
  }

  lemma SevenIsSeven(one: string, three: string)
    requires one == "7" && three == "007"
    ensures ParseUint(one) == Some(7) && ParseUint(three) == Some(7) && Canonical(one)
  {
    var zero := ['0'];
    OneMoreDigit([], '7');
    OneMoreDigit([], '0');
    OneMoreDigit(zero, '0');
    OneMoreDigit(zero + zero, '7');
    assert [] + zero == zero;
    assert one == [] + ['7'] && three == zero + zero + ['7'];
  }

  lemma BarsIdentify(dir: string, id: string, time: string, kind: string, t: uint64)
    requires dir == Bars(id, time, kind) && '|' !in id && '|' !in time && '|' !in kind
    requires id != "" && kind != "" && ParseUint(time) == Some(t)
    ensures IdentityOf(dir) == Some(Identity(id, t, kind)) && TimeText(dir) == time
  {
    SplitBars(id, time, kind);
  }

  lemma SpellingsAlias(id: string, one: string, three: string, kind: string)
    requires one == "7" && three == "007" && id == "a" && kind == "vm"
    ensures Aliases(Bars(id, one, kind), Bars(id, three, kind)) && Canonical(TimeText(Bars(id, one, kind)))
    ensures IdentityOf(Bars(id, one, kind)) == Some(Identity(id, 7, kind))
  {
    SevenIsSeven(one, three);
    BarsIdentify(Bars(id, one, kind), id, one, kind, 7);
    BarsIdentify(Bars(id, three, kind), id, three, kind, 7);
    assert Bars(id, one, kind)[2] == '7' && Bars(id, three, kind)[2] == '0';
  }

  lemma SixCharacters(dir: string, id: string, time: string, kind: string)
    requires dir == "a|7|vm" && id == "a" && time == "7" && kind == "vm"
    ensures dir == Bars(id, time, kind)
  {
    var bars := Bars(id, time, kind);
    assert |bars| == 6;
    forall i | 0 <= i < 6 ensures dir[i] == bars[i] {
    }
  }

  lemma EightCharacters(dir: string, id: string, time: string, kind: string)
    requires dir == "a|007|vm" && id == "a" && time == "007" && kind == "vm"
    ensures dir == Bars(id, time, kind)
  {
    var bars := Bars(id, time, kind);
    assert |bars| == 8;
    forall i | 0 <= i < 8 ensures dir[i] == bars[i] {
    }
  }

  /** Such a pair: `a|7|vm` and `a|007|vm`. */
  lemma SevenHasAnAlias()
    ensures Aliases("a|7|vm", "a|007|vm") && Canonical(TimeText("a|7|vm"))
    ensures IdentityOf("a|7|vm") == Some(Identity("a", 7, "vm"))
  {
    SpellingsAlias("a", "7", "007", "vm");
    SixCharacters("a|7|vm", "a", "7", "vm");
    EightCharacters("a|007|vm", "a", "007", "vm");
  }

  /** The pair at the eighth second, with a retention of no days. */
  lemma ProtectedObjectIsScheduled()
    ensures var inv := AliasInventory("a|7|vm", "a|007|vm");
      && Plannable(inv, map[], 8 * SECOND, 0, 0) && inv.backups[0].protectedTag
      && inv.backups[0] in PlanOf(inv, map[], 8 * SECOND, 0, 0).backupObjects
  {
    SevenHasAnAlias();
    AliasDefeatsProtection("a|7|vm", "a|007|vm", 8 * SECOND, 0);
  }
}
