/** Reading an index file: the full parse of the collector and the short read of its size. */
module IndexFile {
  import opened Wrappers
  import opened Sums
  import opened ObjectKeys
  import opened IndexBytes
  import opened GcPlan

  const HEADER: nat := 4096
  const MAGIC_FIXED: seq<byte> := [47, 127, 65, 237, 145, 253, 15, 205]
  const MAGIC_DYNAMIC: seq<byte> := [28, 145, 78, 165, 25, 186, 179, 205]

  type Sha = seq<byte> -> Digest

  datatype ParseError = TooSmall | WrongChecksum | WrongMagic | Misaligned | Unsupported

  // -------------------------------------------------------- meaning of a file

  function Payload(data: seq<byte>): seq<byte>
    requires |data| >= HEADER
  {
    data[HEADER..]
  }

  function FixedEntry(payload: seq<byte>, k: nat): (d: Digest)
    requires 32 * k + 32 <= |payload|
  {
    payload[32 * k..32 * k + 32]
  }

  function DynamicEntry(payload: seq<byte>, k: nat): (d: Digest)
    requires 40 * k + 40 <= |payload|
  {
    payload[40 * k + 8..40 * k + 40]
  }

  function EndOffset(payload: seq<byte>, k: nat): uint64
    requires 40 * k + 40 <= |payload|
  {
    Get64(payload[40 * k..40 * k + 8])
  }

  function FixedDigests(payload: seq<byte>): seq<string> {
    seq(|payload| / 32, k requires 0 <= k < |payload| / 32 => HexOf(FixedEntry(payload, k)))
  }

  function DynamicDigests(payload: seq<byte>): seq<string> {
    seq(|payload| / 40, k requires 0 <= k < |payload| / 40 => HexOf(DynamicEntry(payload, k)))
  }

  /** The three checksums: in the header, of the payload, in the metadata. */
  predicate SumsAgree(data: seq<byte>, metadata: string, sha: Sha)
    requires |data| >= HEADER
  {
    data[32..64] == sha(Payload(data)) && metadata == HexOf(data[32..64])
  }

  function ParsedFixed(data: seq<byte>, metadata: string): ParsedIndex
    requires |data| >= HEADER
  {
    ParsedIndex(metadata, FixedDigests(Payload(data)), Get64(data[64..72]))
  }

  function ParsedDynamic(data: seq<byte>, metadata: string): ParsedIndex
    requires |data| >= HEADER
  {
    var payload := Payload(data);
    var n := |payload| / 40;
    ParsedIndex(metadata, DynamicDigests(payload), if n == 0 then 0 else EndOffset(payload, n - 1))
  }

  function Parsed(key: string, data: seq<byte>, metadata: string, sha: Sha): Result<ParsedIndex, ParseError> {
    if |data| < HEADER then Err(TooSmall)
    else if !SumsAgree(data, metadata, sha) then Err(WrongChecksum)
    else if HasSuffix(key, FIXED_SUFFIX) then
      if data[..8] != MAGIC_FIXED then Err(WrongMagic)
      else if |Payload(data)| % 32 != 0 then Err(Misaligned)
      else Ok(ParsedFixed(data, metadata))
    else if HasSuffix(key, DYNAMIC_SUFFIX) then
      if data[..8] != MAGIC_DYNAMIC then Err(WrongMagic)
      else if |Payload(data)| % 40 != 0 then Err(Misaligned)
      else Ok(ParsedDynamic(data, metadata))
    else Err(Unsupported)
  }

  // ----------------------------------------------------------- implementation

  method CompareSum(csum: seq<byte>, payload: seq<byte>, metadata: string, sha: Sha) returns (same: bool)
    ensures same <==> csum == sha(payload) && metadata == HexOf(csum)
  {
    var fileChecksum, checksum := HexOf(csum), HexOf(sha(payload));
    if fileChecksum == checksum {
      HexIsInjective(csum, sha(payload));
    }
    return fileChecksum == checksum && fileChecksum == metadata;
  }

  method ReadFixed(payload: seq<byte>) returns (digests: seq<string>)
    requires |payload| % 32 == 0
    ensures digests == FixedDigests(payload)
  {
    digests := [];
    var offset := 0;
    while offset < |payload|
      invariant offset <= |payload| && offset % 32 == 0 && |digests| == offset / 32
      invariant forall k :: 0 <= k < |digests| ==> digests[k] == FixedDigests(payload)[k]
    {
      assert offset == 32 * |digests|;
      digests := digests + [HexOf(payload[offset..offset + 32])];
      offset := offset + 32;
    }
  }

  method ReadDynamic(payload: seq<byte>) returns (digests: seq<string>, logicalSize: uint64)
    requires |payload| % 40 == 0
    ensures digests == DynamicDigests(payload)
    ensures logicalSize == if payload == [] then 0 else EndOffset(payload, |payload| / 40 - 1)
  {
    digests, logicalSize := [], 0;
    var offset := 0;
    while offset < |payload|
      invariant offset <= |payload| && offset % 40 == 0 && |digests| == offset / 40
      invariant forall k :: 0 <= k < |digests| ==> digests[k] == DynamicDigests(payload)[k]
      invariant logicalSize == if offset == 0 then 0 else EndOffset(payload, offset / 40 - 1)
    {
      assert offset == 40 * |digests|;
      logicalSize := Get64(payload[offset..offset + 8]);
      digests := digests + [HexOf(payload[offset + 8..offset + 40])];
      offset := offset + 40;
    }
  }

  method ParseIndex(key: string, data: seq<byte>, metadata: string, sha: Sha)
    returns (r: Result<ParsedIndex, ParseError>)
    ensures r == Parsed(key, data, metadata, sha)
  {
    if |data| < HEADER {
      return Err(TooSmall);
    }
    var payload := data[HEADER..];
    var same := CompareSum(data[32..64], payload, metadata, sha);
    if !same {
      return Err(WrongChecksum);
    }
    if HasSuffix(key, FIXED_SUFFIX) {
      if data[..8] != MAGIC_FIXED {
        return Err(WrongMagic);
      }
      if |payload| % 32 != 0 {
        return Err(Misaligned);
      }
      var digests := ReadFixed(payload);
      return Ok(ParsedIndex(metadata, digests, Get64(data[64..72])));
    }
    if HasSuffix(key, DYNAMIC_SUFFIX) {
      if data[..8] != MAGIC_DYNAMIC {
        return Err(WrongMagic);
      }
      if |payload| % 40 != 0 {
        return Err(Misaligned);
      }
      var digests, logicalSize := ReadDynamic(payload);
      return Ok(ParsedIndex(metadata, digests, logicalSize));
    }
    return Err(Unsupported);
  }

  // -------------------------------------------------------------- short read

  datatype SizeError = NotAnIndex | ShortHeader | BadMagic | BadLength | ShortRead

  /** A ranged GET, both ends included; it may come back short, never long. */
  function RangeRead(data: seq<byte>, start: nat, end: nat): seq<byte>
    requires start <= end
  {
    if start >= |data| then [] else data[start..if end < |data| then end + 1 else |data|]
  }

  function FixedArchiveSize(data: seq<byte>): Result<uint64, SizeError> {
    var head := RangeRead(data, 0, 79);
    if |head| < 80 then Err(ShortHeader)
    else if head[..8] != MAGIC_FIXED then Err(BadMagic)
    else Ok(Get64(head[64..72]))
  }

  function DynamicArchiveSize(data: seq<byte>, objectSize: nat): Result<uint64, SizeError> {
    if objectSize <= HEADER then Ok(0)
    else if (objectSize - HEADER) % 40 != 0 then Err(BadLength)
    else
      var tail := RangeRead(data, objectSize - 40, objectSize - 1);
      if |tail| < 8 then Err(ShortRead) else Ok(Get64(tail[..8]))
  }

  function ArchiveSize(key: string, data: seq<byte>, objectSize: nat): Result<uint64, SizeError> {
    if HasSuffix(key, FIXED_SUFFIX) then FixedArchiveSize(data)
    else if HasSuffix(key, DYNAMIC_SUFFIX) then DynamicArchiveSize(data, objectSize)
    else Err(NotAnIndex)
  }

  lemma SliceOfSlice(s: seq<byte>, a: nat, b: nat, c: nat, d: nat)
    requires a <= b <= |s| && c <= d <= b - a
    ensures s[a..b][c..d] == s[a + c..a + d]
  {
    forall i | 0 <= i < d - c ensures s[a..b][c..d][i] == s[a + c..a + d][i] {
      assert s[a..b][c + i] == s[a + c + i];
    }
  }

  lemma LastEntry(data: seq<byte>)
    requires |data| > HEADER && (|data| - HEADER) % 40 == 0
    ensures var tail := RangeRead(data, |data| - 40, |data| - 1);
      && |tail| == 40
      && tail[..8] == Payload(data)[|data| - HEADER - 40..|data| - HEADER - 32]
  {
    var n := |data|;
    SliceOfSlice(data, HEADER, n, n - HEADER - 40, n - HEADER - 32);
    SliceOfSlice(data, n - 40, n, 0, 8);
    assert RangeRead(data, n - 40, n - 1) == data[n - 40..n];
  }

  /** At most 80 bytes tell what a full parse would: the size of the archive. */
  lemma FastSizeAgrees(key: string, data: seq<byte>, metadata: string, sha: Sha)
    requires Parsed(key, data, metadata, sha).Ok?
    ensures ArchiveSize(key, data, |data|) == Ok(Parsed(key, data, metadata, sha).value.logicalSize)
  {
    if HasSuffix(key, FIXED_SUFFIX) {
      SliceOfSlice(data, 0, 80, 0, 8);
      SliceOfSlice(data, 0, 80, 64, 72);
    } else if |data| > HEADER {
      LastEntry(data);
      var k := (|data| - HEADER) / 40 - 1;
      assert 40 * k == |data| - HEADER - 40;
    }
  }

  // ----------------------------------------------------- the layout, spelled out

  /** The three checks both formats share: a whole header, and one checksum in three places. */
  predicate HonestBytes(data: seq<byte>, metadata: string, sha: Sha) {
    |data| >= 4096 && data[32..64] == sha(data[4096..]) && metadata == HexOf(data[32..64])
  }

  predicate IsFixedFile(data: seq<byte>) {
    |data| >= 4096 && data[..8] == [47, 127, 65, 237, 145, 253, 15, 205] && (|data| - 4096) % 32 == 0
  }

  predicate IsDynamicFile(data: seq<byte>) {
    |data| >= 4096 && data[..8] == [28, 145, 78, 165, 25, 186, 179, 205] && (|data| - 4096) % 40 == 0
  }

  /** Exactly the honest, aligned files of the two formats parse, each under its own suffix. */
  lemma ParsesIff(key: string, data: seq<byte>, metadata: string, sha: Sha)
    ensures Parsed(key, data, metadata, sha).Ok? <==>
      HonestBytes(data, metadata, sha) &&
      ((HasSuffix(key, ".fidx") && IsFixedFile(data)) || (HasSuffix(key, ".didx") && IsDynamicFile(data)))
  {
    if HasSuffix(key, FIXED_SUFFIX) {
      SuffixesDiffer(key);
    }
  }

  /** Why a file is refused: the first of its faults, in the order of the checks. */
  lemma RefusalSays(key: string, data: seq<byte>, metadata: string, sha: Sha)
    ensures Parsed(key, data, metadata, sha) == Err(TooSmall) <==> |data| < 4096
    ensures Parsed(key, data, metadata, sha) == Err(WrongChecksum) <==>
      |data| >= 4096 && !HonestBytes(data, metadata, sha)
    ensures Parsed(key, data, metadata, sha) == Err(Unsupported) <==>
      HonestBytes(data, metadata, sha) && !HasSuffix(key, ".fidx") && !HasSuffix(key, ".didx")
    ensures Parsed(key, data, metadata, sha) == Err(WrongMagic) <==>
      HonestBytes(data, metadata, sha) &&
      ((HasSuffix(key, ".fidx") && data[..8] != [47, 127, 65, 237, 145, 253, 15, 205]) ||
       (HasSuffix(key, ".didx") && data[..8] != [28, 145, 78, 165, 25, 186, 179, 205]))
  {
    if HasSuffix(key, FIXED_SUFFIX) {
      SuffixesDiffer(key);
    }
  }

  /** A fixed index names a chunk every 32 bytes after its header, and its size in bytes 64 to 71. */
  lemma FixedSays(key: string, data: seq<byte>, metadata: string, sha: Sha)
    requires Parsed(key, data, metadata, sha).Ok? && HasSuffix(key, ".fidx")
    ensures var index := Parsed(key, data, metadata, sha).value;
      && index.checksum == metadata && index.logicalSize == Get64(data[64..72])
      && |data| == 4096 + 32 * |index.digests|
      && forall k :: 0 <= k < |index.digests| ==> index.digests[k] == HexOf(data[4096 + 32 * k..4096 + 32 * k + 32])
  {
    var index := Parsed(key, data, metadata, sha).value;
    assert Payload(data) == data[HEADER..|data|];
    forall k | 0 <= k < |index.digests|
      ensures index.digests[k] == HexOf(data[4096 + 32 * k..4096 + 32 * k + 32])
    {
      SliceOfSlice(data, HEADER, |data|, 32 * k, 32 * k + 32);
      assert index.digests[k] == HexOf(FixedEntry(Payload(data), k));
    }
  }

  /** A dynamic index has entries of 40 bytes: where the chunk ends, then its digest. The last end is its size. */
  lemma DynamicSays(key: string, data: seq<byte>, metadata: string, sha: Sha)
    requires Parsed(key, data, metadata, sha).Ok? && HasSuffix(key, ".didx")
    ensures var index := Parsed(key, data, metadata, sha).value;
      && index.checksum == metadata && |data| == 4096 + 40 * |index.digests|
      && index.logicalSize == (if |data| == 4096 then 0 else Get64(data[|data| - 40..|data| - 32]))
      && forall k :: 0 <= k < |index.digests| ==> index.digests[k] == HexOf(data[4096 + 40 * k + 8..4096 + 40 * k + 40])
  {
    if HasSuffix(key, FIXED_SUFFIX) {
      SuffixesDiffer(key);
    }
    var index := Parsed(key, data, metadata, sha).value;
    assert Payload(data) == data[HEADER..|data|];
    forall k | 0 <= k < |index.digests|
      ensures index.digests[k] == HexOf(data[4096 + 40 * k + 8..4096 + 40 * k + 40])
    {
      SliceOfSlice(data, HEADER, |data|, 40 * k + 8, 40 * k + 40);
      assert index.digests[k] == HexOf(DynamicEntry(Payload(data), k));
    }
    if |data| > 4096 {
      var last := (|data| - 4096) / 40 - 1;
      assert 40 * last == |data| - 4096 - 40;
      SliceOfSlice(data, HEADER, |data|, |data| - HEADER - 40, |data| - HEADER - 32);
      assert index.logicalSize == EndOffset(Payload(data), last);
    }
  }

  /**
   * What the short read answers, for any bytes and any length the store claims:
   * it refuses a fixed index without its magic, and a dynamic one whose length
   * is not a whole number of entries or whose last entry is not there.
   */
  lemma ShortReadAnswers(key: string, data: seq<byte>, objectSize: nat)
    ensures HasSuffix(key, ".fidx") ==>
      if |data| >= 80 && data[..8] == [47, 127, 65, 237, 145, 253, 15, 205]
      then ArchiveSize(key, data, objectSize) == Ok(Get64(data[64..72]))
      else ArchiveSize(key, data, objectSize).Err?
    ensures HasSuffix(key, ".didx") ==>
      if objectSize <= 4096 then ArchiveSize(key, data, objectSize) == Ok(0)
      else if (objectSize - 4096) % 40 == 0 && |data| >= objectSize - 32
      then ArchiveSize(key, data, objectSize) == Ok(Get64(data[objectSize - 40..objectSize - 32]))
      else ArchiveSize(key, data, objectSize).Err?
    ensures !HasSuffix(key, ".fidx") && !HasSuffix(key, ".didx") ==> ArchiveSize(key, data, objectSize).Err?
  {
    if HasSuffix(key, FIXED_SUFFIX) {
      SuffixesDiffer(key);
      if |data| >= 80 {
        SliceOfSlice(data, 0, 80, 0, 8);
        SliceOfSlice(data, 0, 80, 64, 72);
      }
    } else if HasSuffix(key, DYNAMIC_SUFFIX) && objectSize > 4096 && |data| >= objectSize - 32 {
      var tail := RangeRead(data, objectSize - 40, objectSize - 1);
      SliceOfSlice(data, objectSize - 40, objectSize - 40 + |tail|, 0, 8);
    }
  }
}
