/** What grouping a listing means, said of the spelled-out keys rather than of how they are taken apart. */
module SnapshotFacts {
  import opened Wrappers
  import opened Sums
  import opened ObjectKeys
  import opened Snapshots

  // ----------------------------------------------------------- spelling a key

  /** `backups/<dir>/<file>` */
  function FileKey(dir: string, file: string): string {
    "backups/" + dir + "/" + file
  }

  predicate IsDir(dir: string) {
    dir != "" && '/' !in dir
  }

  lemma FileKeySplits(dir: string, file: string)
    ensures FileKey(dir, file) == BACKUPS + (dir + ['/'] + file)
  {
  }

  /** A key is read as a directory and a file exactly when it is spelled from them. */
  lemma PathIsSpelling(key: string, dir: string, file: string)
    ensures PathOf(key) == Some(ObjectPath(dir, file)) <==> IsDir(dir) && file != "" && key == FileKey(dir, file)
  {
    FileKeySplits(dir, file);
    if IsDir(dir) && file != "" && key == FileKey(dir, file) {
      FirstIndex(dir, '/', file);
      var rest := dir + ['/'] + file;
      assert key[|BACKUPS|..] == rest;
      assert rest[..|dir|] == dir && rest[|dir| + 1..] == file;
    }
    if PathOf(key) == Some(ObjectPath(dir, file)) {
      var rest := key[|BACKUPS|..];
      assert key == BACKUPS + rest;
      assert rest == dir + ['/'] + file;
    }
  }

  /** The collector attributes a key to the prefix up to the second slash. */
  lemma PrefixIsSpelling(key: string, dir: string)
    ensures SnapshotPrefixForObject(key) == Some("backups/" + dir) <==>
      IsDir(dir) && exists file :: key == FileKey(dir, file)
  {
    if SnapshotPrefixForObject(key) == Some("backups/" + dir) {
      var rest := key[|BACKUPS|..];
      var slash := IndexByte(rest, '/');
      SamePrefixTail(BACKUPS, rest[..slash], dir);
      FileKeySplits(dir, rest[slash + 1..]);
      assert key == BACKUPS + rest && rest == dir + ['/'] + rest[slash + 1..];
      assert key == FileKey(dir, rest[slash + 1..]);
    }
    if file :| IsDir(dir) && key == FileKey(dir, file) {
      FileKeySplits(dir, file);
      FirstIndex(dir, '/', file);
      assert key[|BACKUPS|..] == dir + ['/'] + file;
      assert (dir + ['/'] + file)[..|dir|] == dir;
    }
  }

  predicate AllZeros(s: string) {
    forall i :: 0 <= i < |s| ==> s[i] == '0'
  }

  /** The usage report leaves a key with fewer than two slashes as it is. */
  lemma ShortKeysAreTheirOwn(a: string, b: string)
    requires '/' !in a && '/' !in b
    ensures SnapshotOfIndex(a) == a && SnapshotOfIndex(a + "/" + b) == a + "/" + b
  {
    SplitLast(a, '/');
    SplitHead(a, '/', b);
    SplitLast(b, '/');
    assert a + "/" + b == a + ['/'] + b;
  }

  lemma {:induction false} LeadingZero(s: string)
    requires AllDigits(s)
    ensures AllDigits("0" + s) && DigitsValue("0" + s) == DigitsValue(s)
    decreases |s|
  {
    var t := "0" + s;
    if s == [] {
      assert t == "0" && t[..0] == [];
    } else {
      LeadingZero(s[..|s| - 1]);
      assert t[..|t| - 1] == "0" + s[..|s| - 1];
    }
  }

  /**
   * Which timestamps are read: every 64-bit number as it is printed, with any
   * zeros in front of it, and nothing else.
   */
  lemma {:induction false} TimestampIsSpelling(s: string, n: nat)
    ensures ParseUint(s) == Some(n) <==>
      n < 0x1_0000_0000_0000_0000 && exists zeros :: AllZeros(zeros) && s == zeros + FormatUint(n)
    decreases |s|
  {
    FormatIsCanonical(n);
    if ParseUint(s) == Some(n) {
      var zeros := ZerosInFront(s);
      assert s == zeros + FormatUint(n);
    }
    if zeros :| AllZeros(zeros) && s == zeros + FormatUint(n) {
      ZerosAreIgnored(zeros, FormatUint(n));
    }
  }

  lemma {:induction false} ZerosInFront(s: string) returns (zeros: string)
    requires ParseUint(s).Some?
    ensures AllZeros(zeros)
    ensures s == zeros + FormatUint(ParseUint(s).value)
    decreases |s|
  {
    if Canonical(s) {
      CanonicalIsFormat(s);
      zeros := "";
    } else {
      assert s == "0" + s[1..];
      LeadingZero(s[1..]);
      var fewer := ZerosInFront(s[1..]);
      zeros := "0" + fewer;
    }
  }

  lemma {:induction false} ZerosAreIgnored(zeros: string, s: string)
    requires AllDigits(s) && AllZeros(zeros)
    ensures AllDigits(zeros + s) && DigitsValue(zeros + s) == DigitsValue(s)
    decreases |zeros|
  {
    if zeros == [] {
      assert zeros + s == s;
    } else {
      ZerosAreIgnored(zeros[1..], s);
      LeadingZero(zeros[1..] + s);
      assert zeros + s == "0" + (zeros[1..] + s);
    }
  }

  /** `<id>|<time>|<type>` */
  function DirName(id: string, time: string, kind: string): string {
    id + "|" + time + "|" + kind
  }

  lemma DirNameIsBars(id: string, time: string, kind: string)
    ensures DirName(id, time, kind) == Bars(id, time, kind)
  {
  }

  /** The directory spells the identity, with its timestamp written this way. */
  predicate Spells(dir: string, who: Identity, time: string) {
    && dir == DirName(who.id, time, who.kind) && ParseUint(time) == Some(who.time)
    && who.id != "" && who.kind != "" && '|' !in who.id && '|' !in who.kind
  }

  /** A directory is read as an identity exactly when it is spelled from it. */
  lemma IdentityIsSpelling(dir: string, who: Identity)
    ensures IdentityOf(dir) == Some(who) <==> exists time :: Spells(dir, who, time)
  {
    if IdentityOf(dir) == Some(who) {
      DirIsBars(dir);
      var time := Split(dir, '|')[1];
      DirNameIsBars(who.id, time, who.kind);
      assert Spells(dir, who, time);
    }
    if time :| Spells(dir, who, time) {
      DirNameIsBars(who.id, time, who.kind);
      SplitBars(who.id, time, who.kind);
    }
  }

  // -------------------------------------------------------- what a snapshot says

  lemma TagJoins(front: seq<ObjectInfo>, o: ObjectInfo, dir: string)
    ensures TaggedProtected(front + [o], dir) <==> TaggedProtected(front, dir) || (InDir(o, dir) && o.protectedTag)
  {
    assert (front + [o])[..|front|] == front;
  }

  /** A snapshot is listed as protected exactly when one of its objects is. */
  lemma {:induction false} TagIsListed(objects: seq<ObjectInfo>, dir: string)
    ensures TaggedProtected(objects, dir) <==> exists o :: o in objects && InDir(o, dir) && o.protectedTag
    decreases |objects|
  {
    if objects != [] {
      var n := |objects| - 1;
      TagIsListed(objects[..n], dir);
      assert objects == objects[..n] + [objects[n]];
      TagJoins(objects[..n], objects[n], dir);
    }
  }

  /** A snapshot counts as corrupted exactly when the file of that name is listed in it. */
  lemma {:induction false} CorruptedIsListed(objects: seq<ObjectInfo>, dir: string)
    requires IsDir(dir)
    ensures MarkedCorrupted(objects, dir) <==>
      exists i :: 0 <= i < |objects| && objects[i].key == FileKey(dir, "corrupted")
    decreases |objects|
  {
    if objects != [] {
      var n := |objects| - 1;
      CorruptedIsListed(objects[..n], dir);
      PathIsSpelling(objects[n].key, dir, "corrupted");
      if i :| 0 <= i < n && objects[..n][i].key == FileKey(dir, "corrupted") {
        assert objects[i].key == FileKey(dir, "corrupted");
      }
      if i :| 0 <= i < |objects| && objects[i].key == FileKey(dir, "corrupted") {
        assert i < n ==> objects[..n][i].key == FileKey(dir, "corrupted");
      }
    }
  }

  /**
   * Files come in the order of the listing: an object of the directory comes
   * last, with its name and size, unless its name ends in `.csjson`.
   */
  lemma FileJoins(front: seq<ObjectInfo>, o: ObjectInfo, dir: string, file: string)
    requires IsDir(dir) && file != "" && o.key == FileKey(dir, file)
    ensures FilesOf(front + [o], dir) == FilesOf(front, dir) +
      (if exists name :: file == name + ".csjson" then [] else [SnapshotFile(file, o.size)])
  {
    PathIsSpelling(o.key, dir, file);
    assert (front + [o])[..|front|] == front;
    SuffixIsEnd(file, ".csjson");
  }

  /** Any other object is no file of it. */
  lemma OthersStayOut(front: seq<ObjectInfo>, o: ObjectInfo, dir: string)
    requires !exists file :: file != "" && o.key == FileKey(dir, file)
    ensures FilesOf(front + [o], dir) == FilesOf(front, dir)
  {
    assert (front + [o])[..|front|] == front;
    if InDir(o, dir) {
      PathIsSpelling(o.key, dir, PathOf(o.key).value.file);
    }
  }

  lemma SuffixIsEnd(s: string, x: string)
    ensures HasSuffix(s, x) <==> exists front :: s == front + x
  {
    if HasSuffix(s, x) {
      assert s == s[..|s| - |x|] + x;
    }
  }

  lemma PrefixIsStart(s: string, p: string)
    ensures HasPrefix(s, p) <==> exists back :: s == p + back
  {
    if HasPrefix(s, p) {
      assert s == p + s[|p|..];
    }
  }

  /** Where in the listing a directory first appears. */
  ghost predicate FirstSeen(objects: seq<ObjectInfo>, dir: string, i: nat) {
    i < |objects| && InDir(objects[i], dir) && forall j :: 0 <= j < i ==> !InDir(objects[j], dir)
  }

  /** Snapshots come in the order in which their directories first appear. */
  lemma {:induction false} DirsInOrder(objects: seq<ObjectInfo>, a: nat, b: nat, i: nat, j: nat)
    requires a < b < |Dirs(objects)|
    requires FirstSeen(objects, Dirs(objects)[a], i) && FirstSeen(objects, Dirs(objects)[b], j)
    ensures i < j
    decreases |objects|
  {
    var n := |objects| - 1;
    var front := objects[..n];
    assert Dirs(objects)[a] in Dirs(front);
    SeenInFront(objects, Dirs(objects)[a], i);
    if b < |Dirs(front)| {
      assert Dirs(objects)[b] in Dirs(front);
      SeenInFront(objects, Dirs(objects)[b], j);
      DirsInOrder(front, a, b, i, j);
    } else {
      DirsAreKnown(objects);
      assert forall k :: 0 <= k < |Dirs(front)| ==> Dirs(front)[k] == Dirs(objects)[k] != Dirs(objects)[b];
      NewDirComesLast(objects, front, Dirs(objects)[b], j);
    }
  }

  /** A directory that is not in front is first seen last. */
  lemma NewDirComesLast(objects: seq<ObjectInfo>, front: seq<ObjectInfo>, dir: string, j: nat)
    requires objects != [] && front == objects[..|objects| - 1] && dir !in Dirs(front) && FirstSeen(objects, dir, j)
    ensures j == |objects| - 1
  {
    if j < |front| {
      IsListedIn(front, dir, j);
    }
  }

  lemma IsListedIn(objects: seq<ObjectInfo>, dir: string, i: nat)
    requires i < |objects| && InDir(objects[i], dir)
    ensures dir in Dirs(objects)
  {
    DirsAreKnown(objects);
  }

  lemma SeenInFront(objects: seq<ObjectInfo>, dir: string, i: nat)
    requires objects != [] && FirstSeen(objects, dir, i) && dir in Dirs(objects[..|objects| - 1])
    ensures FirstSeen(objects[..|objects| - 1], dir, i)
  {
    var front := objects[..|objects| - 1];
    DirsAreKnown(front);
    var k :| 0 <= k < |front| && InDir(front[k], dir);
    assert InDir(objects[k], dir);
  }

  /** Without corrupted snapshots the rest is there, in the same order. */
  lemma CorruptedIsLeftOut(objects: seq<ObjectInfo>, front: seq<string>, dir: string)
    requires IsDir(dir) && forall i :: 0 <= i < |front + [dir]| ==> IdentityOf((front + [dir])[i]).Some?
    ensures forall i :: 0 <= i < |front| ==> IdentityOf(front[i]).Some?
    ensures IdentityOf(dir).Some?
    ensures Kept(objects, front + [dir], false) == Kept(objects, front, false) +
      (if exists i :: 0 <= i < |objects| && objects[i].key == FileKey(dir, "corrupted") then []
       else [SnapshotOf(objects, dir)])
  {
    var dirs := front + [dir];
    assert dirs[..|front|] == front && dirs[|front|] == dir;
    forall i | 0 <= i < |front| ensures IdentityOf(front[i]).Some? {
      assert dirs[i] == front[i];
    }
    CorruptedIsListed(objects, dir);
  }

  // ------------------------------------------------------------------ the walk

  /** The bytes below a prefix are the sizes of the objects whose keys go on after it, each once. */
  lemma {:induction false} BytesAddUp(front: seq<ObjectInfo>, back: seq<ObjectInfo>, prefix: string)
    ensures TotalBytes(front + back, prefix) == TotalBytes(front, prefix) + TotalBytes(back, prefix)
    decreases |back|
  {
    if back == [] {
      assert front + back == front;
    } else {
      var n := |back| - 1;
      BytesAddUp(front, back[..n], prefix);
      assert (front + back)[..|front + back| - 1] == front + back[..n];
    }
  }

  lemma OneObjectsBytes(o: ObjectInfo, prefix: string)
    ensures TotalBytes([o], prefix) == if exists rest :: rest != "" && o.key == prefix + rest then o.size else 0
  {
    assert [o][..0] == [];
    if |o.key| > |prefix| && o.key[..|prefix|] == prefix {
      assert o.key == prefix + o.key[|prefix|..];
    }
  }

  /** What the proxy stores as a chunk the walk counts as a chunk. */
  lemma ChunksAreCounted(d: string, size: uint64, now: int, tag: bool)
    requires ChunkObjectName(d).Some?
    ensures TotalBytes([ObjectInfo(ChunkObjectName(d).value, size, now, tag)], "chunks/") == size
  {
    var key := ChunkObjectName(d).value;
    assert key == "chunks/" + (d[0..2] + "/" + d[2..4] + "/" + d[4..]);
    OneObjectsBytes(ObjectInfo(key, size, now, tag), "chunks/");
  }
}
