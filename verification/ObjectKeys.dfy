/** The object keys of a bucket: how they are spelled and how they are read back. */
module ObjectKeys {
  import opened Wrappers

  predicate HasPrefix(s: string, p: string) {
    p <= s
  }

  predicate HasSuffix(s: string, x: string) {
    |x| <= |s| && s[|s| - |x|..] == x
  }

  /** Position of the first c, or -1. */
  function IndexByte(s: string, c: char): (r: int)
    ensures -1 <= r < |s|
    ensures r < 0 ==> c !in s
    ensures r >= 0 ==> s[r] == c && c !in s[..r]
  {
    if s == [] then -1
    else if s[0] == c then 0
    else
      var i := IndexByte(s[1..], c);
      if i < 0 then -1 else
        assert s[..i + 1] == [s[0]] + s[1..][..i];
        i + 1
  }

  function Split(s: string, c: char): (parts: seq<string>)
    ensures |parts| >= 1
    decreases |s|
  {
    var i := IndexByte(s, c);
    if i < 0 then [s] else [s[..i]] + Split(s[i + 1..], c)
  }

  function Join(parts: seq<string>, c: char): string
    requires |parts| >= 1
  {
    if |parts| == 1 then parts[0] else parts[0] + [c] + Join(parts[1..], c)
  }

  lemma {:induction false} FirstIndex(a: string, c: char, b: string)
    requires c !in a
    ensures IndexByte(a + [c] + b, c) == |a|
  {
    if a == [] {
      assert (a + [c] + b)[0] == c;
    } else {
      FirstIndex(a[1..], c, b);
      assert (a + [c] + b)[1..] == a[1..] + [c] + b;
      assert (a + [c] + b)[0] == a[0];
    }
  }

  lemma SplitHead(a: string, c: char, b: string)
    requires c !in a
    ensures Split(a + [c] + b, c) == [a] + Split(b, c)
  {
    FirstIndex(a, c, b);
    var s := a + [c] + b;
    assert s[..|a|] == a;
    assert s[|a| + 1..] == b;
  }

  lemma SplitLast(a: string, c: char)
    requires c !in a
    ensures Split(a, c) == [a]
  {
  }

  /** Splitting loses nothing, and no part holds the separator. */
  lemma {:induction false} JoinSplit(s: string, c: char)
    ensures Join(Split(s, c), c) == s
    ensures forall i :: 0 <= i < |Split(s, c)| ==> c !in Split(s, c)[i]
    decreases |s|
  {
    var i := IndexByte(s, c);
    if i >= 0 {
      JoinSplit(s[i + 1..], c);
      assert s == s[..i] + [c] + s[i + 1..];
      assert Split(s, c)[1..] == Split(s[i + 1..], c);
    }
  }

  // ---------------------------------------------------------------- decimals

  function FormatUint(n: nat): (s: string)
    ensures |s| >= 1
  {
    if n < 10 then ['0' + n as char] else FormatUint(n / 10) + ['0' + (n % 10) as char]
  }

  predicate IsDigit(c: char) {
    '0' <= c <= '9'
  }

  predicate AllDigits(s: string) {
    forall i :: 0 <= i < |s| ==> IsDigit(s[i])
  }

  function DigitsValue(s: string): nat
    requires AllDigits(s)
  {
    if s == [] then 0 else 10 * DigitsValue(s[..|s| - 1]) + (s[|s| - 1] - '0') as nat
  }

  /** strconv.ParseUint(s, 10, 64): digits only, leading zeros accepted. */
  function ParseUint(s: string): Option<nat> {
    if s != [] && AllDigits(s) && DigitsValue(s) < 0x1_0000_0000_0000_0000 then Some(DigitsValue(s)) else None
  }

  /** A decimal with no superfluous zero in front. */
  predicate Canonical(s: string) {
    s != [] && AllDigits(s) && (|s| > 1 ==> s[0] != '0')
  }

  lemma {:induction false} FormatIsCanonical(n: nat)
    ensures Canonical(FormatUint(n)) && DigitsValue(FormatUint(n)) == n
    ensures n > 0 ==> FormatUint(n)[0] != '0'
    decreases n
  {
    if n >= 10 {
      FormatIsCanonical(n / 10);
      var front := FormatUint(n / 10);
      assert FormatUint(n)[..|front|] == front;
    } else {
      assert FormatUint(n)[..0] == [];
    }
  }

  lemma {:induction false} CanonicalIsFormat(s: string)
    requires Canonical(s)
    ensures FormatUint(DigitsValue(s)) == s
    ensures s[0] != '0' ==> DigitsValue(s) > 0
    decreases |s|
  {
    var front, last := s[..|s| - 1], s[|s| - 1];
    assert s == front + [last];
    if |s| == 1 {
      assert front == [];
    } else {
      CanonicalIsFormat(front);
      var v := DigitsValue(s);
      assert v / 10 == DigitsValue(front) && v % 10 == (last - '0') as nat;
    }
  }

  /** Printing what was parsed gives the text back exactly for canonical decimals. */
  lemma ReprintIffCanonical(s: string)
    requires ParseUint(s).Some?
    ensures FormatUint(ParseUint(s).value) == s <==> Canonical(s)
  {
    FormatIsCanonical(ParseUint(s).value);
    if Canonical(s) {
      CanonicalIsFormat(s);
    }
  }

  // ----------------------------------------------------------- backups/ keys

  const BACKUPS := "backups/"
  const FIXED_SUFFIX := ".fidx"
  const DYNAMIC_SUFFIX := ".didx"
  const MANIFEST := "/index.json.blob"

  predicate IsIndex(name: string) {
    HasSuffix(name, FIXED_SUFFIX) || HasSuffix(name, DYNAMIC_SUFFIX)
  }

  lemma SuffixesDiffer(name: string)
    requires HasSuffix(name, FIXED_SUFFIX)
    ensures !HasSuffix(name, DYNAMIC_SUFFIX)
  {
    assert name[|name| - 4] == FIXED_SUFFIX[1] != DYNAMIC_SUFFIX[1];
  }

  /** The collector's reading of a key under backups/. */
  function SnapshotPrefixForObject(key: string): Option<string> {
    if !HasPrefix(key, BACKUPS) then None
    else
      var rest := key[|BACKUPS|..];
      var slash := IndexByte(rest, '/');
      if slash <= 0 then None else Some(BACKUPS + rest[..slash])
  }

  /** The usage report's reading of the same key. */
  function SnapshotOfIndex(key: string): string {
    var parts := Split(key, '/');
    if |parts| < 3 then key else parts[0] + "/" + parts[1]
  }

  /** The collector and its report attribute every accepted key to the same snapshot. */
  lemma ReportAndCollectorAgree(key: string)
    requires SnapshotPrefixForObject(key).Some?
    ensures SnapshotOfIndex(key) == SnapshotPrefixForObject(key).value
  {
    var rest := key[|BACKUPS|..];
    var slash := IndexByte(rest, '/');
    var name, tail := rest[..slash], rest[slash + 1..];
    assert key == "backups" + ['/'] + rest;
    assert rest == name + ['/'] + tail;
    SplitHead("backups", '/', rest);
    SplitHead(name, '/', tail);
    var parts := Split(key, '/');
    assert parts[0] == "backups" && parts[1] == name && |parts| >= 3;
  }

  // ------------------------------------------------------------ chunks/ keys

  predicate IsHexDigit(c: char) {
    '0' <= c <= '9' || 'a' <= c <= 'f' || 'A' <= c <= 'F'
  }

  /** hex.DecodeString accepts it and yields 32 bytes. */
  predicate IsDigest(d: string) {
    |d| == 64 && forall i :: 0 <= i < |d| ==> IsHexDigit(d[i])
  }

  /** Where the proxy stores a chunk. */
  function ChunkObjectName(digest: string): Option<string> {
    if IsDigest(digest) then Some("chunks/" + digest[0..2] + "/" + digest[2..4] + "/" + digest[4..]) else None
  }

  /** Which chunk the collector takes a key for. */
  function ChunkDigestFromKey(key: string): Option<string> {
    var parts := Split(key, '/');
    if |parts| != 4 || parts[0] != "chunks" || |parts[1]| != 2 || |parts[2]| != 2 || |parts[3]| != 60 then None
    else
      var digest := parts[1] + parts[2] + parts[3];
      if IsDigest(digest) then Some(digest) else None
  }

  function Slash(a: string, b: string): string {
    a + ['/'] + b
  }

  lemma SplitThree(a: string, b: string, c: string)
    requires '/' !in a && '/' !in b && '/' !in c
    ensures Split(Slash(a, Slash(b, c)), '/') == [a, b, c]
  {
    SplitHead(a, '/', Slash(b, c));
    SplitHead(b, '/', c);
    SplitLast(c, '/');
  }

  function FourParts(a: string, b: string, c: string, d: string): string {
    Slash(a, Slash(b, Slash(c, d)))
  }

  lemma SplitFour(a: string, b: string, c: string, d: string)
    requires '/' !in a && '/' !in b && '/' !in c && '/' !in d
    ensures Split(FourParts(a, b, c, d), '/') == [a, b, c, d]
  {
    var rest := Slash(b, Slash(c, d));
    SplitThree(b, c, d);
    SplitHead(a, '/', rest);
    assert [a] + [b, c, d] == [a, b, c, d];
  }

  lemma JoinFour(a: string, b: string, c: string, d: string)
    ensures Join([a, b, c, d], '/') == FourParts(a, b, c, d)
  {
    assert [a, b, c, d][1..] == [b, c, d];
    assert [b, c, d][1..] == [c, d];
    assert [c, d][1..] == [d];
    assert Join([c, d], '/') == Slash(c, d);
    assert Join([b, c, d], '/') == Slash(b, Slash(c, d));
  }

  lemma NameIsFourParts(d: string)
    requires IsDigest(d)
    ensures ChunkObjectName(d) == Some(FourParts("chunks", d[0..2], d[2..4], d[4..]))
  {
    assert "chunks/" == "chunks" + ['/'];
    assert "chunks/" + d[0..2] + "/" + d[2..4] + "/" + d[4..] == FourParts("chunks", d[0..2], d[2..4], d[4..]);
  }

  /** The digest in three parts, between slashes: `chunks/aa/bb/` and the other sixty digits. */
  lemma NameIsSpelled(d: string, name: string)
    requires ChunkObjectName(d) == Some(name)
    ensures |d| == 64 && |name| == 73 && name[..7] == "chunks/" && name[9] == '/' && name[12] == '/'
    ensures name[7..9] == d[..2] && name[10..12] == d[2..4] && name[13..] == d[4..]
  {
    assert name == "chunks/" + (d[0..2] + "/" + d[2..4] + "/" + d[4..]);
  }

  lemma NameThenDigest(d: string)
    requires IsDigest(d)
    ensures ChunkDigestFromKey(ChunkObjectName(d).value) == Some(d)
  {
    var a, b, c := d[0..2], d[2..4], d[4..];
    NameIsFourParts(d);
    SplitFour("chunks", a, b, c);
    assert a + b + c == d;
  }

  lemma DigestThenName(key: string)
    requires ChunkDigestFromKey(key).Some?
    ensures ChunkObjectName(ChunkDigestFromKey(key).value) == Some(key)
  {
    var parts := Split(key, '/');
    var d := ChunkDigestFromKey(key).value;
    JoinSplit(key, '/');
    JoinFour(parts[0], parts[1], parts[2], parts[3]);
    assert parts == [parts[0], parts[1], parts[2], parts[3]];
    NameIsFourParts(d);
    assert d[0..2] == parts[1] && d[2..4] == parts[2] && d[4..] == parts[3];
  }

  /** The proxy's writing and the collector's reading of a chunk key are inverse bijections. */
  lemma ChunkKeysRoundTrip(d: string, key: string)
    ensures ChunkObjectName(d) == Some(key) <==> ChunkDigestFromKey(key) == Some(d)
  {
    if ChunkObjectName(d) == Some(key) {
      NameThenDigest(d);
    }
    if ChunkDigestFromKey(key) == Some(d) {
      DigestThenName(key);
    }
  }
}
