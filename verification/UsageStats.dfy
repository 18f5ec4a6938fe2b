/** The usage report: what each snapshot references, and what it alone references. */
module UsageStats {
  import opened Sums
  import opened ObjectKeys

  datatype SnapshotUsage = SnapshotUsage(
    snapshot: string,
    logicalBytes: uint64,
    referencedBytes: uint64,
    exclusiveBytes: uint64,
    chunks: uint64)

  datatype Report = Report(chunkBytes: uint64, chunks: uint64, logicalBytes: uint64, snapshots: seq<SnapshotUsage>)

  // ------------------------------------------------------- what is reported

  /** A missing map entry reads as zero. */
  function SizeIn(sizes: map<string, uint64>, k: string): uint64 {
    if k in sizes then sizes[k] else 0
  }

  ghost function Sizes(sizes: map<string, uint64>): string -> nat {
    k => SizeIn(sizes, k)
  }

  /** The snapshots that reference a chunk, each once however often it does. */
  function Owners(references: seq<string>): set<string> {
    if references == [] then {}
    else Owners(references[..|references| - 1]) + {SnapshotOfIndex(references[|references| - 1])}
  }

  lemma {:induction false} OwnersExactly(references: seq<string>, name: string)
    ensures name in Owners(references) <==> exists k :: k in references && SnapshotOfIndex(k) == name
  {
    if references != [] {
      var n := |references| - 1;
      OwnersExactly(references[..n], name);
      assert references == references[..n] + [references[n]];
      if name in Owners(references[..n]) {
        var k :| k in references[..n] && SnapshotOfIndex(k) == name;
        assert k in references;
      }
    }
  }

  lemma OwnersStep(references: seq<string>, n: nat)
    requires n < |references|
    ensures Owners(references[..n + 1]) == Owners(references[..n]) + {SnapshotOfIndex(references[n])}
  {
    assert references[..n + 1][..n] == references[..n];
  }

  method FindOwners(references: seq<string>) returns (owners: set<string>)
    ensures owners == Owners(references)
  {
    owners := {};
    for n := 0 to |references|
      invariant owners == Owners(references[..n])
    {
      OwnersStep(references, n);
      owners := owners + {SnapshotOfIndex(references[n])};
    }
    assert references[..|references|] == references;
  }

  /** The owners of every known chunk. */
  ghost function OwnersOf(known: map<string, seq<string>>): map<string, set<string>> {
    map d | d in known :: Owners(known[d])
  }

  /** The snapshot every archive belongs to. */
  ghost function HomesOf(archives: map<string, uint64>): map<string, string> {
    map k | k in archives :: SnapshotOfIndex(k)
  }

  ghost function ReferencedBy(name: string, owners: map<string, set<string>>, among: set<string>): set<string> {
    set d | d in among && d in owners && name in owners[d]
  }

  ghost function ExclusiveTo(name: string, owners: map<string, set<string>>, among: set<string>): set<string> {
    set d | d in among && d in owners && owners[d] == {name}
  }

  ghost function ArchivesOf(name: string, homes: map<string, string>, among: set<string>): set<string> {
    set k | k in among && k in homes && homes[k] == name
  }

  /** Exact figures; the report holds them modulo 2^64. */
  ghost function Referenced(name: string, owners: map<string, set<string>>, sizes: map<string, uint64>): nat {
    Sum(ReferencedBy(name, owners, owners.Keys), Sizes(sizes))
  }

  ghost function Exclusive(name: string, owners: map<string, set<string>>, sizes: map<string, uint64>): nat {
    Sum(ExclusiveTo(name, owners, owners.Keys), Sizes(sizes))
  }

  ghost function Logical(name: string, homes: map<string, string>, archives: map<string, uint64>): nat {
    Sum(ArchivesOf(name, homes, archives.Keys), Sizes(archives))
  }

  ghost predicate Houses(name: string, homes: map<string, string>) {
    exists k :: k in homes && homes[k] == name
  }

  // ---------------------------------------------------------- sorted by name

  /** Bytewise order of strings. */
  predicate Less(a: string, b: string) {
    b != [] && (a == [] || a[0] < b[0] || (a[0] == b[0] && Less(a[1..], b[1..])))
  }

  lemma {:induction false} LessIsTotal(a: string, b: string)
    ensures a == b || Less(a, b) || Less(b, a)
    ensures !(Less(a, b) && Less(b, a)) && !Less(a, a)
  {
    if a != [] && b != [] && a[0] == b[0] {
      LessIsTotal(a[1..], b[1..]);
      assert a == [a[0]] + a[1..] && b == [b[0]] + b[1..];
    }
    if a != [] {
      LessIsTotal(a[1..], a[1..]);
    }
  }

  lemma {:induction false} LessIsTransitive(a: string, b: string, c: string)
    requires Less(a, b) && Less(b, c)
    ensures Less(a, c)
  {
    if a != [] && a[0] == b[0] == c[0] {
      LessIsTransitive(a[1..], b[1..], c[1..]);
    }
  }

  /** The strings agree up to i, where the first has ended or has the smaller character. */
  predicate DifferAt(a: string, b: string, i: nat) {
    i <= |a| && i < |b| && a[..i] == b[..i] && (i == |a| || a[i] < b[i])
  }

  lemma DifferLater(a: string, b: string, i: nat)
    requires DifferAt(a, b, i)
    ensures i > 0 ==> a != [] && b != [] && a[0] == b[0]
  {
    if i > 0 {
      assert a[..i][0] == a[0] && b[..i][0] == b[0];
    }
  }

  /** As a dictionary has them. */
  lemma {:induction false} LessIsBytewise(a: string, b: string)
    ensures Less(a, b) <==> exists i: nat :: DifferAt(a, b, i)
    decreases |a|
  {
    if a != [] && b != [] && a[0] == b[0] {
      LessIsBytewise(a[1..], b[1..]);
      assert a == [a[0]] + a[1..] && b == [b[0]] + b[1..];
      if i: nat :| DifferAt(a[1..], b[1..], i) {
        assert a[..i + 1] == [a[0]] + a[1..][..i] && b[..i + 1] == [b[0]] + b[1..][..i];
        assert DifferAt(a, b, i + 1);
      }
      if i: nat :| DifferAt(a, b, i) {
        assert i > 0;
        assert a[1..][..i - 1] == a[..i][1..] && b[1..][..i - 1] == b[..i][1..];
        assert DifferAt(a[1..], b[1..], i - 1);
      }
    } else {
      assert b != [] && (a == [] || a[0] < b[0]) ==> DifferAt(a, b, 0);
      if i: nat :| DifferAt(a, b, i) {
        DifferLater(a, b, i);
      }
    }
  }

  predicate Sorted(s: seq<SnapshotUsage>) {
    forall i, j :: 0 <= i < j < |s| ==> Less(s[i].snapshot, s[j].snapshot)
  }

  /** One insertion of the sort by snapshot name. */
  function Insert(s: seq<SnapshotUsage>, u: SnapshotUsage): seq<SnapshotUsage> {
    if s == [] || Less(u.snapshot, s[0].snapshot) then [u] + s else [s[0]] + Insert(s[1..], u)
  }

  lemma {:induction false} InsertKeepsOrder(s: seq<SnapshotUsage>, u: SnapshotUsage)
    requires Sorted(s) && forall v :: v in s ==> v.snapshot != u.snapshot
    ensures Sorted(Insert(s, u))
    ensures forall v :: v in Insert(s, u) <==> v in s || v == u
  {
    if s == [] {
    } else if Less(u.snapshot, s[0].snapshot) {
      forall j | 0 <= j < |s| ensures Less(u.snapshot, s[j].snapshot) {
        if j > 0 {
          LessIsTransitive(u.snapshot, s[0].snapshot, s[j].snapshot);
        }
      }
    } else {
      LessIsTotal(u.snapshot, s[0].snapshot);
      assert s[0] in s;
      var rest := Insert(s[1..], u);
      InsertKeepsOrder(s[1..], u);
      assert s == [s[0]] + s[1..];
      forall j | 0 <= j < |rest| ensures Less(s[0].snapshot, rest[j].snapshot) {
        assert rest[j] in rest;
        if rest[j] != u {
          var i :| 0 <= i < |s[1..]| && s[1..][i] == rest[j];
          assert s[i + 1] == rest[j];
        }
      }
    }
  }

  // ----------------------------------------------------------- computing it

  type Ledger = map<string, SnapshotUsage>

  function Entry(per: Ledger, name: string): SnapshotUsage {
    if name in per then per[name] else SnapshotUsage(name, 0, 0, 0, 0)
  }

  predicate OwnName(per: Ledger) {
    forall n :: n in per ==> per[n].snapshot == n
  }

  predicate Shaped(per: Ledger, name: string, logical: uint64, referenced: uint64, exclusive: uint64, chunks: uint64) {
    Entry(per, name) == SnapshotUsage(name, logical, referenced, exclusive, chunks)
  }

  lemma ArchiveStep(n: string, homes: map<string, string>, archives: map<string, uint64>, done: set<string>, k: string)
    requires k in homes && k in archives && k !in done
    ensures Sum(ArchivesOf(n, homes, done + {k}), Sizes(archives)) ==
      Sum(ArchivesOf(n, homes, done), Sizes(archives)) + (if homes[k] == n then archives[k] else 0)
  {
    if homes[k] == n {
      assert ArchivesOf(n, homes, done + {k}) == ArchivesOf(n, homes, done) + {k};
      SumAdd(ArchivesOf(n, homes, done), Sizes(archives), k);
    } else {
      assert ArchivesOf(n, homes, done + {k}) == ArchivesOf(n, homes, done);
    }
  }

  ghost function LogicalSoFar(n: string, homes: map<string, string>, archives: map<string, uint64>, done: set<string>)
    : nat
  {
    Sum(ArchivesOf(n, homes, done), Sizes(archives))
  }

  method AddArchives(archives: map<string, uint64>) returns (per: Ledger)
    ensures OwnName(per)
    ensures forall n :: n in per <==> Houses(n, HomesOf(archives))
    ensures forall n :: Shaped(per, n, Wrap64(Logical(n, HomesOf(archives), archives)), 0, 0, 0)
  {
    per := map[];
    var rest := archives.Keys;
    ghost var homes := HomesOf(archives);
    while rest != {}
      invariant rest <= archives.Keys && OwnName(per)
      invariant forall n :: n in per <==> exists k :: k in homes && k !in rest && homes[k] == n
      invariant forall n :: Shaped(per, n, Wrap64(LogicalSoFar(n, homes, archives, archives.Keys - rest)), 0, 0, 0)
    {
      var k :| k in rest;
      var name := SnapshotOfIndex(k);
      ghost var before, done := per, archives.Keys - rest;
      assert Shaped(per, name, Wrap64(LogicalSoFar(name, homes, archives, done)), 0, 0, 0);
      var u := Entry(per, name);
      AddWraps(LogicalSoFar(name, homes, archives, done), archives[k]);
      per := per[name := u.(logicalBytes := Add64(u.logicalBytes, archives[k]))];
      rest := rest - {k};
      assert archives.Keys - rest == done + {k};
      forall n ensures Shaped(per, n, Wrap64(LogicalSoFar(n, homes, archives, done + {k})), 0, 0, 0) {
        ArchiveStep(n, homes, archives, done, k);
        assert Shaped(before, n, Wrap64(LogicalSoFar(n, homes, archives, done)), 0, 0, 0);
      }
    }
    assert archives.Keys - rest == archives.Keys;
    forall n ensures Shaped(per, n, Wrap64(Logical(n, homes, archives)), 0, 0, 0) {
      assert Shaped(per, n, Wrap64(LogicalSoFar(n, homes, archives, archives.Keys)), 0, 0, 0);
    }
  }

  /** What one chunk adds to one of its owners. */
  function Charge(u: SnapshotUsage, size: uint64, alone: bool): SnapshotUsage {
    u.(referencedBytes := Add64(u.referencedBytes, size),
       chunks := Add64(u.chunks, 1),
       exclusiveBytes := if alone then Add64(u.exclusiveBytes, size) else u.exclusiveBytes)
  }

  predicate IsCharged(start: Ledger, per: Ledger, n: string, owners: set<string>, size: uint64, alone: bool) {
    Entry(per, n) == if n in owners then Charge(Entry(start, n), size, alone) else Entry(start, n)
  }

  lemma ChargeOne(start: Ledger, before: Ledger, per: Ledger, n: string, done: set<string>, owner: string,
                  size: uint64, alone: bool)
    requires IsCharged(start, before, n, done, size, alone) && owner !in done
    requires per == before[owner := Charge(Entry(start, owner), size, alone)]
    ensures IsCharged(start, per, n, done + {owner}, size, alone)
  {
  }

  method ChargeOwners(start: Ledger, owners: set<string>, size: uint64, alone: bool) returns (per: Ledger)
    requires OwnName(start)
    ensures OwnName(per)
    ensures forall n :: n in per <==> n in start || n in owners
    ensures forall n :: IsCharged(start, per, n, owners, size, alone)
  {
    per := start;
    var rest := owners;
    while rest != {}
      invariant rest <= owners && OwnName(per)
      invariant forall n :: n in per <==> n in start || n in owners - rest
      invariant forall n :: IsCharged(start, per, n, owners - rest, size, alone)
    {
      var owner :| owner in rest;
      ghost var before, done := per, owners - rest;
      assert IsCharged(start, per, owner, done, size, alone);
      var u := Entry(per, owner);
      u := u.(referencedBytes := Add64(u.referencedBytes, size), chunks := Add64(u.chunks, 1));
      if alone {
        u := u.(exclusiveBytes := Add64(u.exclusiveBytes, size));
      }
      assert u == Charge(Entry(start, owner), size, alone);
      per := per[owner := u];
      rest := rest - {owner};
      assert owners - rest == done + {owner};
      forall n ensures IsCharged(start, per, n, done + {owner}, size, alone) {
        ChargeOne(start, before, per, n, done, owner, size, alone);
      }
    }
    assert owners - rest == owners;
  }

  /** What a snapshot owes to the chunks in `done`. */
  ghost function ReferencedSoFar(n: string, owners: map<string, set<string>>, sizes: map<string, uint64>,
                                 done: set<string>)
    : nat
  {
    Sum(ReferencedBy(n, owners, done), Sizes(sizes))
  }

  ghost function ExclusiveSoFar(n: string, owners: map<string, set<string>>, sizes: map<string, uint64>,
                                done: set<string>)
    : nat
  {
    Sum(ExclusiveTo(n, owners, done), Sizes(sizes))
  }

  lemma OnlyOwner(owners: set<string>, n: string)
    requires n in owners
    ensures |owners| == 1 <==> owners == {n}
  {
    assert |owners - {n}| == |owners| - 1;
  }

  lemma ReferencedStep(n: string, owners: map<string, set<string>>, sizes: map<string, uint64>, done: set<string>,
                       d: string)
    requires d in owners && d !in done
    ensures ReferencedSoFar(n, owners, sizes, done + {d}) ==
      ReferencedSoFar(n, owners, sizes, done) + (if n in owners[d] then SizeIn(sizes, d) else 0)
    ensures |ReferencedBy(n, owners, done + {d})| == |ReferencedBy(n, owners, done)| + (if n in owners[d] then 1 else 0)
  {
    if n in owners[d] {
      assert ReferencedBy(n, owners, done + {d}) == ReferencedBy(n, owners, done) + {d};
      SumAdd(ReferencedBy(n, owners, done), Sizes(sizes), d);
    } else {
      assert ReferencedBy(n, owners, done + {d}) == ReferencedBy(n, owners, done);
    }
  }

  lemma ExclusiveStep(n: string, owners: map<string, set<string>>, sizes: map<string, uint64>, done: set<string>,
                      d: string)
    requires d in owners && d !in done
    ensures ExclusiveSoFar(n, owners, sizes, done + {d}) ==
      ExclusiveSoFar(n, owners, sizes, done) + (if n in owners[d] && |owners[d]| == 1 then SizeIn(sizes, d) else 0)
  {
    if n in owners[d] {
      OnlyOwner(owners[d], n);
    }
    if owners[d] == {n} {
      assert ExclusiveTo(n, owners, done + {d}) == ExclusiveTo(n, owners, done) + {d};
      SumAdd(ExclusiveTo(n, owners, done), Sizes(sizes), d);
    } else {
      assert ExclusiveTo(n, owners, done + {d}) == ExclusiveTo(n, owners, done);
    }
  }

  /** The entry of `n` after the chunks in `done`. */
  ghost predicate Charged(per: Ledger, n: string, logical: uint64, done: set<string>,
                          owners: map<string, set<string>>, sizes: map<string, uint64>)
  {
    Shaped(per, n, logical, Wrap64(ReferencedSoFar(n, owners, sizes, done)),
           Wrap64(ExclusiveSoFar(n, owners, sizes, done)), Wrap64(|ReferencedBy(n, owners, done)|))
  }

  lemma ChargedStep(before: Ledger, after: Ledger, n: string, logical: uint64, done: set<string>, d: string,
                    owners: map<string, set<string>>, sizes: map<string, uint64>)
    requires d in owners && d !in done && Charged(before, n, logical, done, owners, sizes)
    requires IsCharged(before, after, n, owners[d], SizeIn(sizes, d), |owners[d]| == 1)
    ensures Charged(after, n, logical, done + {d}, owners, sizes)
  {
    ReferencedStep(n, owners, sizes, done, d);
    ExclusiveStep(n, owners, sizes, done, d);
    if n in owners[d] {
      AddWraps(ReferencedSoFar(n, owners, sizes, done), SizeIn(sizes, d));
      AddWraps(ExclusiveSoFar(n, owners, sizes, done), SizeIn(sizes, d));
      AddWraps(|ReferencedBy(n, owners, done)|, 1);
    }
  }

  /** A reported figure is the exact one, wrapped to 64 bits. */
  ghost predicate UsageOf(u: SnapshotUsage, owners: map<string, set<string>>, sizes: map<string, uint64>,
                          homes: map<string, string>, archives: map<string, uint64>)
  {
    && u.logicalBytes == Wrap64(Logical(u.snapshot, homes, archives))
    && u.referencedBytes == Wrap64(Referenced(u.snapshot, owners, sizes))
    && u.exclusiveBytes == Wrap64(Exclusive(u.snapshot, owners, sizes))
    && u.chunks == Wrap64(|ReferencedBy(u.snapshot, owners, owners.Keys)|)
  }

  lemma NothingCharged(per: Ledger, n: string, logical: uint64, owners: map<string, set<string>>,
                       sizes: map<string, uint64>)
    requires Shaped(per, n, logical, 0, 0, 0)
    ensures Charged(per, n, logical, {}, owners, sizes)
  {
    assert ReferencedBy(n, owners, {}) == {} && ExclusiveTo(n, owners, {}) == {};
  }

  lemma ChargedIsUsage(per: Ledger, n: string, owners: map<string, set<string>>, sizes: map<string, uint64>,
                       homes: map<string, string>, archives: map<string, uint64>)
    requires n in per && Charged(per, n, Wrap64(Logical(n, homes, archives)), owners.Keys, owners, sizes)
    ensures UsageOf(per[n], owners, sizes, homes, archives)
  {
  }

  ghost predicate AllCharged(per: Ledger, done: set<string>,
                             owners: map<string, set<string>>, sizes: map<string, uint64>,
                             homes: map<string, string>, archives: map<string, uint64>) {
    forall n :: Charged(per, n, Wrap64(Logical(n, homes, archives)), done, owners, sizes)
  }

  lemma StartCharged(start: Ledger, owners: map<string, set<string>>, sizes: map<string, uint64>,
                     homes: map<string, string>, archives: map<string, uint64>)
    requires OwnName(start) && forall n :: Shaped(start, n, Wrap64(Logical(n, homes, archives)), 0, 0, 0)
    ensures AllCharged(start, {}, owners, sizes, homes, archives) && Recorded(start, start, {}, owners)
  {
    forall n ensures Charged(start, n, Wrap64(Logical(n, homes, archives)), {}, owners, sizes) {
      NothingCharged(start, n, Wrap64(Logical(n, homes, archives)), owners, sizes);
    }
  }

  lemma AllChargedStep(before: Ledger, after: Ledger, done: set<string>, d: string, mine: set<string>, size: uint64,
                       alone: bool,
                       owners: map<string, set<string>>, sizes: map<string, uint64>,
                       homes: map<string, string>, archives: map<string, uint64>)
    requires d in owners && d !in done && AllCharged(before, done, owners, sizes, homes, archives)
    requires mine == owners[d] && size == SizeIn(sizes, d) && alone == (|mine| == 1)
    requires forall n :: IsCharged(before, after, n, mine, size, alone)
    ensures AllCharged(after, done + {d}, owners, sizes, homes, archives)
  {
    forall n ensures Charged(after, n, Wrap64(Logical(n, homes, archives)), done + {d}, owners, sizes) {
      ChargedStep(before, after, n, Wrap64(Logical(n, homes, archives)), done, d, owners, sizes);
    }
  }

  ghost predicate OwnsAmong(n: string, done: set<string>, owners: map<string, set<string>>) {
    exists d :: d in done && d in owners && n in owners[d]
  }

  lemma OwnsOneMore(done: set<string>, d: string, owners: map<string, set<string>>)
    requires d in owners
    ensures forall n :: OwnsAmong(n, done + {d}, owners) <==> OwnsAmong(n, done, owners) || n in owners[d]
  {
    forall n | n in owners[d] ensures OwnsAmong(n, done + {d}, owners) {
      assert d in done + {d};
    }
  }

  ghost predicate Recorded(start: Ledger, per: Ledger, done: set<string>, owners: map<string, set<string>>) {
    OwnName(per) && forall n :: n in per <==> n in start || OwnsAmong(n, done, owners)
  }

  method ChargeChunk(start: Ledger, before: Ledger, references: seq<string>, size: uint64,
                     ghost done: set<string>, ghost d: string,
                     ghost owners: map<string, set<string>>, ghost sizes: map<string, uint64>,
                     ghost homes: map<string, string>, ghost archives: map<string, uint64>)
    returns (per: Ledger)
    requires d in owners && d !in done && owners[d] == Owners(references) && size == SizeIn(sizes, d)
    requires Recorded(start, before, done, owners) && AllCharged(before, done, owners, sizes, homes, archives)
    ensures Recorded(start, per, done + {d}, owners) && AllCharged(per, done + {d}, owners, sizes, homes, archives)
  {
    var mine := FindOwners(references);
    var alone := |mine| == 1;
    per := ChargeOwners(before, mine, size, alone);
    AllChargedStep(before, per, done, d, mine, size, alone, owners, sizes, homes, archives);
    OwnsOneMore(done, d, owners);
  }

  /** How many chunks were visited, and how large they are together. */
  ghost predicate Tallied(chunks: uint64, chunkBytes: uint64, n: nat, done: set<string>, sizes: map<string, uint64>) {
    chunks == Wrap64(n) && chunkBytes == Wrap64(Sum(done, Sizes(sizes)))
  }

  method TallyChunk(chunks: uint64, chunkBytes: uint64, size: uint64, ghost n: nat,
                    ghost done: set<string>, ghost d: string, ghost sizes: map<string, uint64>)
    returns (more: uint64, moreBytes: uint64)
    requires d !in done && size == SizeIn(sizes, d) && Tallied(chunks, chunkBytes, n, done, sizes)
    ensures Tallied(more, moreBytes, n + 1, done + {d}, sizes)
  {
    SumAdd(done, Sizes(sizes), d);
    AddWraps(n, 1);
    AddWraps(Sum(done, Sizes(sizes)), size);
    more, moreBytes := Add64(chunks, 1), Add64(chunkBytes, size);
  }

  method AddChunks(start: Ledger, known: map<string, seq<string>>, sizes: map<string, uint64>,
                   ghost owners: map<string, set<string>>, ghost homes: map<string, string>,
                   ghost archives: map<string, uint64>)
    returns (per: Ledger, chunks: uint64, chunkBytes: uint64)
    requires owners.Keys == known.Keys && forall d :: d in known ==> owners[d] == Owners(known[d])
    requires Recorded(start, start, {}, owners) && AllCharged(start, {}, owners, sizes, homes, archives)
    ensures Recorded(start, per, known.Keys, owners)
    ensures AllCharged(per, known.Keys, owners, sizes, homes, archives)
    ensures Tallied(chunks, chunkBytes, |known|, known.Keys, sizes)
  {
    per, chunks, chunkBytes := start, 0, 0;
    var rest := known.Keys;
    ghost var n: nat, done: set<string> := 0, {};
    while rest != {}
      invariant rest <= known.Keys && done == known.Keys - rest && n + |rest| == |known|
      invariant Recorded(start, per, done, owners)
      invariant AllCharged(per, done, owners, sizes, homes, archives)
      invariant Tallied(chunks, chunkBytes, n, done, sizes)
    {
      var digest :| digest in rest;
      var size := SizeIn(sizes, digest);
      chunks, chunkBytes := TallyChunk(chunks, chunkBytes, size, n, done, digest, sizes);
      per := ChargeChunk(start, per, known[digest], size, done, digest, owners, sizes, homes, archives);
      rest, done, n := rest - {digest}, done + {digest}, n + 1;
    }
    assert done == known.Keys;
  }

  ghost function LogicalAmong(among: set<string>, homes: map<string, string>, archives: map<string, uint64>)
    : string -> nat
  {
    n => LogicalSoFar(n, homes, archives, among)
  }

  lemma LogicalOneArchive(names: set<string>, less: set<string>, homes: map<string, string>,
                          archives: map<string, uint64>, k: string)
    requires k in archives && k in homes && k !in less && homes[k] in names
    ensures Sum(names, LogicalAmong(less + {k}, homes, archives)) ==
      Sum(names, LogicalAmong(less, homes, archives)) + archives[k]
  {
    var home, size := {homes[k]}, archives[k];
    var f, g, h := LogicalAmong(less + {k}, homes, archives), LogicalAmong(less, homes, archives), ShareOf(home, size);
    forall n | n in names ensures f(n) == g(n) + h(n) {
      ArchiveStep(n, homes, archives, less, k);
    }
    SumOfParts(names, f, g, h);
    SharesAddUp(names, home, size);
    assert |home| == 1;
  }

  /** Every archive belongs to one snapshot, so the snapshots add up to the archives. */
  lemma {:induction false} LogicalAddsUp(names: set<string>, among: set<string>, homes: map<string, string>,
                                         archives: map<string, uint64>)
    requires among <= archives.Keys && forall k :: k in among ==> k in homes && homes[k] in names
    ensures Sum(names, LogicalAmong(among, homes, archives)) == Sum(among, Sizes(archives))
    decreases |among|
  {
    if among == {} {
      forall n | n in names ensures LogicalAmong(among, homes, archives)(n) == 0 {
        assert ArchivesOf(n, homes, among) == {};
      }
      SumZero(names, LogicalAmong(among, homes, archives));
    } else {
      var k :| k in among;
      var less := among - {k};
      assert less + {k} == among;
      LogicalAddsUp(names, less, homes, archives);
      LogicalOneArchive(names, less, homes, archives, k);
      SumRemove(among, Sizes(archives), k);
    }
  }

  lemma SumOfParts(s: set<string>, f: string -> nat, g: string -> nat, h: string -> nat)
    requires forall n :: n in s ==> f(n) == g(n) + h(n)
    ensures Sum(s, f) == Sum(s, g) + Sum(s, h)
  {
    SumPlus(s, g, h);
    SumCongruent(s, f, x => g(x) + h(x));
  }

  lemma WrapAdds(a: nat, b: nat)
    ensures Add64(Wrap64(a), Wrap64(b)) == Wrap64(a + b)
  {
  }

  ghost predicate Listed(per: Ledger, done: set<string>, snapshots: seq<SnapshotUsage>) {
    forall u :: u in snapshots <==> u.snapshot in per && u.snapshot in done && u == per[u.snapshot]
  }

  lemma ListedStep(per: Ledger, done: set<string>, snapshots: seq<SnapshotUsage>, name: string)
    requires OwnName(per) && Listed(per, done, snapshots) && Sorted(snapshots) && name in per && name !in done
    ensures Sorted(Insert(snapshots, per[name])) && Listed(per, done + {name}, Insert(snapshots, per[name]))
  {
    InsertKeepsOrder(snapshots, per[name]);
  }

  /** The logical sizes of the snapshots visited so far, added up. */
  ghost predicate LogicalSum(logical: uint64, done: set<string>, f: string -> nat) {
    logical == Wrap64(Sum(done, f))
  }

  method AddLogical(logical: uint64, more: uint64, ghost done: set<string>, ghost name: string, ghost f: string -> nat)
    returns (r: uint64)
    requires name !in done && more == Wrap64(f(name)) && LogicalSum(logical, done, f)
    ensures LogicalSum(r, done + {name}, f)
  {
    SumAdd(done, f, name);
    WrapAdds(Sum(done, f), f(name));
    r := Add64(logical, more);
  }

  /** Sorts the ledger by name, adding up the logical sizes on the way. */
  method Present(per: Ledger, ghost f: string -> nat) returns (logical: uint64, snapshots: seq<SnapshotUsage>)
    requires OwnName(per) && forall n :: n in per ==> per[n].logicalBytes == Wrap64(f(n))
    ensures LogicalSum(logical, per.Keys, f)
    ensures Sorted(snapshots) && Listed(per, per.Keys, snapshots)
  {
    logical, snapshots := 0, [];
    var rest := per.Keys;
    ghost var done: set<string> := {};
    while rest != {}
      invariant rest <= per.Keys && done == per.Keys - rest
      invariant LogicalSum(logical, done, f)
      invariant Sorted(snapshots) && Listed(per, done, snapshots)
    {
      var name :| name in rest;
      ListedStep(per, done, snapshots, name);
      logical := AddLogical(logical, per[name].logicalBytes, done, name, f);
      snapshots := Insert(snapshots, per[name]);
      rest := rest - {name};
      done := done + {name};
    }
    assert done == per.Keys;
  }

  /**
   * What a report says. Every figure is the exact one modulo 2^64, and the
   * list has, in order and once each, exactly the snapshots with an archive or
   * a reference.
   */
  ghost predicate IsReport(stats: Report, known: map<string, seq<string>>, sizes: map<string, uint64>,
                           archives: map<string, uint64>)
  {
    && stats.chunks == Wrap64(|known|)
    && stats.chunkBytes == Wrap64(Sum(known.Keys, Sizes(sizes)))
    && stats.logicalBytes == Wrap64(Sum(archives.Keys, Sizes(archives)))
    && Sorted(stats.snapshots)
    && (forall n :: n in NamesIn(stats.snapshots) <==>
          Houses(n, HomesOf(archives)) || OwnsAmong(n, known.Keys, OwnersOf(known)))
    && (forall u :: u in stats.snapshots ==> UsageOf(u, OwnersOf(known), sizes, HomesOf(archives), archives))
  }

  function NamesIn(snapshots: seq<SnapshotUsage>): set<string> {
    set u | u in snapshots :: u.snapshot
  }

  method ComputeUsageStats(known: map<string, seq<string>>, sizes: map<string, uint64>, archives: map<string, uint64>)
    returns (stats: Report)
    ensures IsReport(stats, known, sizes, archives)
  {
    ghost var homes, owners := HomesOf(archives), OwnersOf(known);
    var first := AddArchives(archives);
    StartCharged(first, owners, sizes, homes, archives);
    var per, chunks, chunkBytes := AddChunks(first, known, sizes, owners, homes, archives);
    assert owners.Keys == known.Keys;
    forall n | n in per ensures UsageOf(per[n], owners, sizes, homes, archives) {
      ChargedIsUsage(per, n, owners, sizes, homes, archives);
    }
    ghost var f := LogicalAmong(archives.Keys, homes, archives);
    var logical, snapshots := Present(per, f);
    forall k | k in archives.Keys ensures k in homes && homes[k] in per.Keys {
      assert Houses(homes[k], homes);
      assert homes[k] in first;
    }
    LogicalAddsUp(per.Keys, archives.Keys, homes, archives);
    forall n ensures n in NamesIn(snapshots) <==> n in per {
      if n in per {
        assert per[n] in snapshots;
      }
    }
    stats := Report(chunkBytes, chunks, logical, snapshots);
  }

  // ------------------------------------------------------------ conservation

  ghost function ShareOf(owners: set<string>, size: nat): string -> nat {
    n => if n in owners then size else 0
  }

  lemma {:induction false} SharesAddUp(names: set<string>, owners: set<string>, size: nat)
    requires owners <= names
    ensures Sum(names, ShareOf(owners, size)) == size * |owners|
    decreases |owners|
  {
    if owners == {} {
      SumZero(names, ShareOf(owners, size));
    } else {
      var n :| n in owners;
      var fewer := owners - {n};
      SharesAddUp(names - {n}, fewer, size);
      SumRemove(names, ShareOf(owners, size), n);
      SumCongruent(names - {n}, ShareOf(owners, size), ShareOf(fewer, size));
      OneMore(size, |fewer|);
      assert |owners| == |fewer| + 1;
    }
  }

  lemma OneMore(size: nat, n: nat)
    ensures size * (n + 1) == size + size * n
  {
  }

  ghost function ReferencedAmong(among: set<string>, owners: map<string, set<string>>, sizes: map<string, uint64>)
    : string -> nat
  {
    n => ReferencedSoFar(n, owners, sizes, among)
  }

  ghost function ExclusiveAmong(among: set<string>, owners: map<string, set<string>>, sizes: map<string, uint64>)
    : string -> nat
  {
    n => ExclusiveSoFar(n, owners, sizes, among)
  }

  /** A chunk counted once per snapshot that references it. */
  ghost function TimesOwned(owners: map<string, set<string>>, sizes: map<string, uint64>): string -> nat {
    d => if d in owners then SizeIn(sizes, d) * |owners[d]| else 0
  }

  /** Counting by snapshot and counting by chunk come to the same. */
  lemma {:induction false} CountBothWays(names: set<string>, among: set<string>, owners: map<string, set<string>>,
                                         sizes: map<string, uint64>)
    requires among <= owners.Keys && forall d :: d in among ==> owners[d] <= names
    ensures Sum(names, ReferencedAmong(among, owners, sizes)) == Sum(among, TimesOwned(owners, sizes))
    ensures Sum(names, ExclusiveAmong(among, owners, sizes)) <= Sum(among, Sizes(sizes))
    decreases |among|
  {
    if among == {} {
      forall n | n in names
        ensures ReferencedAmong(among, owners, sizes)(n) == 0 && ExclusiveAmong(among, owners, sizes)(n) == 0
      {
        assert ReferencedBy(n, owners, among) == {} && ExclusiveTo(n, owners, among) == {};
      }
      SumZero(names, ReferencedAmong(among, owners, sizes));
      SumZero(names, ExclusiveAmong(among, owners, sizes));
    } else {
      var d :| d in among;
      var less, size := among - {d}, SizeIn(sizes, d);
      CountBothWays(names, less, owners, sizes);
      ReferencedOneChunk(names, less, owners, sizes, d);
      ExclusiveOneChunk(names, less, owners, sizes, d);
      assert less + {d} == among;
      SumRemove(among, TimesOwned(owners, sizes), d);
      SumRemove(among, Sizes(sizes), d);
    }
  }

  lemma ReferencedOneChunk(names: set<string>, less: set<string>, owners: map<string, set<string>>,
                           sizes: map<string, uint64>, d: string)
    requires d in owners && d !in less && owners[d] <= names
    ensures Sum(names, ReferencedAmong(less + {d}, owners, sizes)) ==
      Sum(names, ReferencedAmong(less, owners, sizes)) + SizeIn(sizes, d) * |owners[d]|
  {
    var f, g := ReferencedAmong(less + {d}, owners, sizes), ReferencedAmong(less, owners, sizes);
    var h := ShareOf(owners[d], SizeIn(sizes, d));
    forall n | n in names ensures f(n) == g(n) + h(n) {
      ReferencedStep(n, owners, sizes, less, d);
    }
    SumOfParts(names, f, g, h);
    SharesAddUp(names, owners[d], SizeIn(sizes, d));
  }

  /** The owners a chunk counts as exclusive for: its only one, or none. */
  ghost function Alone(owners: set<string>): set<string> {
    if |owners| == 1 then owners else {}
  }

  lemma ExclusiveShare(n: string, less: set<string>, owners: map<string, set<string>>, sizes: map<string, uint64>,
                       d: string)
    requires d in owners && d !in less
    ensures ExclusiveAmong(less + {d}, owners, sizes)(n) ==
      ExclusiveAmong(less, owners, sizes)(n) + ShareOf(Alone(owners[d]), SizeIn(sizes, d))(n)
  {
    ExclusiveStep(n, owners, sizes, less, d);
  }

  lemma AloneCountsOnce(names: set<string>, owners: set<string>, size: nat)
    requires owners <= names
    ensures Sum(names, ShareOf(Alone(owners), size)) <= size
  {
    SharesAddUp(names, Alone(owners), size);
  }

  lemma ExclusiveOneChunk(names: set<string>, less: set<string>, owners: map<string, set<string>>,
                          sizes: map<string, uint64>, d: string)
    requires d in owners && d !in less && owners[d] <= names
    ensures Sum(names, ExclusiveAmong(less + {d}, owners, sizes)) <=
      Sum(names, ExclusiveAmong(less, owners, sizes)) + SizeIn(sizes, d)
  {
    var f, g := ExclusiveAmong(less + {d}, owners, sizes), ExclusiveAmong(less, owners, sizes);
    var h := ShareOf(Alone(owners[d]), SizeIn(sizes, d));
    forall n | n in names ensures f(n) == g(n) + h(n) {
      ExclusiveShare(n, less, owners, sizes, d);
    }
    SumOfParts(names, f, g, h);
    AloneCountsOnce(names, owners[d], SizeIn(sizes, d));
  }

  ghost function ReferencedFn(owners: map<string, set<string>>, sizes: map<string, uint64>): string -> nat {
    n => Referenced(n, owners, sizes)
  }

  ghost function ExclusiveFn(owners: map<string, set<string>>, sizes: map<string, uint64>): string -> nat {
    n => Exclusive(n, owners, sizes)
  }

  /**
   * Conservation, for any set of names that covers the owners: what snapshots
   * hold exclusively fits in the chunks, the chunks fit in what they reference,
   * and what they reference counts every chunk once per owner.
   */
  lemma ReportConserves(names: set<string>, owners: map<string, set<string>>, sizes: map<string, uint64>)
    requires forall d :: d in owners ==> owners[d] <= names
    ensures Sum(names, ExclusiveFn(owners, sizes)) <= Sum(owners.Keys, Sizes(sizes))
    ensures Sum(names, ReferencedFn(owners, sizes)) == Sum(owners.Keys, TimesOwned(owners, sizes))
    ensures (forall d :: d in owners ==> owners[d] != {}) ==>
      Sum(owners.Keys, Sizes(sizes)) <= Sum(names, ReferencedFn(owners, sizes))
  {
    CountBothWays(names, owners.Keys, owners, sizes);
    SumCongruent(names, ReferencedFn(owners, sizes), ReferencedAmong(owners.Keys, owners, sizes));
    SumCongruent(names, ExclusiveFn(owners, sizes), ExclusiveAmong(owners.Keys, owners, sizes));
    if forall d :: d in owners ==> owners[d] != {} {
      OwnedChunksFit(owners, sizes);
    }
  }

  lemma OwnedChunksFit(owners: map<string, set<string>>, sizes: map<string, uint64>)
    requires forall d :: d in owners ==> owners[d] != {}
    ensures Sum(owners.Keys, Sizes(sizes)) <= Sum(owners.Keys, TimesOwned(owners, sizes))
  {
    forall d | d in owners.Keys ensures Sizes(sizes)(d) <= TimesOwned(owners, sizes)(d) {
      AtLeastOnce(SizeIn(sizes, d), |owners[d]|);
    }
    SumAtMost(owners.Keys, Sizes(sizes), TimesOwned(owners, sizes));
  }

  lemma AtLeastOnce(size: nat, owners: nat)
    requires owners >= 1
    ensures size <= size * owners
  {
  }

  // ---------------------------------------------------- the figures of a report

  /** The sum of one figure over the list of a report. */
  ghost function ListSum(snapshots: seq<SnapshotUsage>, figure: SnapshotUsage -> nat): nat {
    if snapshots == [] then 0
    else ListSum(snapshots[..|snapshots| - 1], figure) + figure(snapshots[|snapshots| - 1])
  }

  ghost function ExclusiveFigure(): SnapshotUsage -> nat {
    (u: SnapshotUsage) => u.exclusiveBytes
  }

  ghost function ReferencedFigure(): SnapshotUsage -> nat {
    (u: SnapshotUsage) => u.referencedBytes
  }

  lemma NamesOneMore(snapshots: seq<SnapshotUsage>, n: nat)
    requires |snapshots| == n + 1 && Sorted(snapshots)
    ensures NamesIn(snapshots) == NamesIn(snapshots[..n]) + {snapshots[n].snapshot}
    ensures snapshots[n].snapshot !in NamesIn(snapshots[..n])
  {
    assert snapshots == snapshots[..n] + [snapshots[n]];
    forall u | u in snapshots[..n] ensures u.snapshot != snapshots[n].snapshot {
      var i :| 0 <= i < n && snapshots[i] == u;
      LessIsTotal(u.snapshot, snapshots[n].snapshot);
    }
  }

  /** Every name is listed once, so the list adds up like the names. */
  lemma {:induction false} ListAddsUp(snapshots: seq<SnapshotUsage>, figure: SnapshotUsage -> nat, f: string -> nat)
    requires Sorted(snapshots) && forall u :: u in snapshots ==> figure(u) == f(u.snapshot)
    ensures ListSum(snapshots, figure) == Sum(NamesIn(snapshots), f)
    decreases |snapshots|
  {
    if snapshots == [] {
      assert NamesIn(snapshots) == {};
    } else {
      var n := |snapshots| - 1;
      ListAddsUp(snapshots[..n], figure, f);
      NamesOneMore(snapshots, n);
      SumAdd(NamesIn(snapshots[..n]), f, snapshots[n].snapshot);
    }
  }

  lemma PartOfSum(s: set<string>, f: string -> nat, n: string)
    requires n in s
    ensures f(n) <= Sum(s, f)
  {
    SumRemove(s, f, n);
  }

  /** Every chunk has an owner, and counting it once for each owner fits in 64 bits. */
  ghost predicate Fits(owners: map<string, set<string>>, sizes: map<string, uint64>) {
    && (forall d :: d in owners ==> owners[d] != {})
    && Sum(owners.Keys, TimesOwned(owners, sizes)) < TWO_64
  }

  ghost predicate Covers(names: set<string>, owners: map<string, set<string>>) {
    forall d :: d in owners ==> owners[d] <= names
  }

  /** Then no figure of a covered name can wrap. */
  lemma FiguresFit(names: set<string>, owners: map<string, set<string>>, sizes: map<string, uint64>, n: string)
    requires Fits(owners, sizes) && Covers(names, owners) && n in names
    ensures Exclusive(n, owners, sizes) < TWO_64 && Referenced(n, owners, sizes) < TWO_64
  {
    ReportConserves(names, owners, sizes);
    PartOfSum(names, ExclusiveFn(owners, sizes), n);
    PartOfSum(names, ReferencedFn(owners, sizes), n);
  }

  lemma SmallStays(n: nat)
    requires n < TWO_64
    ensures Wrap64(n) == n
  {
  }

  lemma FiguresAreExact(snapshots: seq<SnapshotUsage>, owners: map<string, set<string>>, sizes: map<string, uint64>,
                        homes: map<string, string>, archives: map<string, uint64>, u: SnapshotUsage)
    requires Fits(owners, sizes) && Covers(NamesIn(snapshots), owners) && u in snapshots
    requires UsageOf(u, owners, sizes, homes, archives)
    ensures ExclusiveFigure()(u) == ExclusiveFn(owners, sizes)(u.snapshot)
    ensures ReferencedFigure()(u) == ReferencedFn(owners, sizes)(u.snapshot)
  {
    FiguresFit(NamesIn(snapshots), owners, sizes, u.snapshot);
    SmallStays(Exclusive(u.snapshot, owners, sizes));
    SmallStays(Referenced(u.snapshot, owners, sizes));
  }

  lemma ListConserves(snapshots: seq<SnapshotUsage>, owners: map<string, set<string>>, sizes: map<string, uint64>,
                      homes: map<string, string>, archives: map<string, uint64>)
    requires Fits(owners, sizes) && Covers(NamesIn(snapshots), owners) && Sorted(snapshots)
    requires forall u :: u in snapshots ==> UsageOf(u, owners, sizes, homes, archives)
    ensures ListSum(snapshots, ExclusiveFigure()) <= Sum(owners.Keys, Sizes(sizes))
    ensures Sum(owners.Keys, Sizes(sizes)) <= ListSum(snapshots, ReferencedFigure())
    ensures ListSum(snapshots, ReferencedFigure()) == Sum(owners.Keys, TimesOwned(owners, sizes))
  {
    forall u | u in snapshots
      ensures ExclusiveFigure()(u) == ExclusiveFn(owners, sizes)(u.snapshot)
      ensures ReferencedFigure()(u) == ReferencedFn(owners, sizes)(u.snapshot)
    {
      FiguresAreExact(snapshots, owners, sizes, homes, archives, u);
    }
    ListAddsUp(snapshots, ExclusiveFigure(), ExclusiveFn(owners, sizes));
    ListAddsUp(snapshots, ReferencedFigure(), ReferencedFn(owners, sizes));
    ReportConserves(NamesIn(snapshots), owners, sizes);
  }

  lemma OwnersAreListed(stats: Report, known: map<string, seq<string>>, sizes: map<string, uint64>,
                        archives: map<string, uint64>)
    requires IsReport(stats, known, sizes, archives)
    ensures Covers(NamesIn(stats.snapshots), OwnersOf(known))
  {
    forall d, n | d in known && n in Owners(known[d]) ensures n in NamesIn(stats.snapshots) {
      assert OwnsAmong(n, known.Keys, OwnersOf(known));
    }
  }

  /**
   * Conservation, in the figures a reader sees: the exclusive bytes of the
   * listed snapshots together are at most the chunk bytes, those at most the
   * referenced bytes together, and these count every chunk once per owner.
   */
  lemma ReportAddsUp(stats: Report, known: map<string, seq<string>>, sizes: map<string, uint64>,
                     archives: map<string, uint64>)
    requires IsReport(stats, known, sizes, archives) && Fits(OwnersOf(known), sizes)
    ensures ListSum(stats.snapshots, ExclusiveFigure()) <= stats.chunkBytes
    ensures stats.chunkBytes <= ListSum(stats.snapshots, ReferencedFigure())
    ensures ListSum(stats.snapshots, ReferencedFigure()) == Sum(known.Keys, TimesOwned(OwnersOf(known), sizes))
  {
    assert OwnersOf(known).Keys == known.Keys;
    OwnersAreListed(stats, known, sizes, archives);
    ListConserves(stats.snapshots, OwnersOf(known), sizes, HomesOf(archives), archives);
    SmallStays(Sum(known.Keys, Sizes(sizes)));
  }
}
