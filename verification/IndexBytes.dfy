/** Bytes as the index files hold them: little-endian words and hexadecimal digests. */
module IndexBytes {
  import opened Sums
  import opened ObjectKeys

  type byte = b: nat | b < 256

  /** A SHA-256 digest. */
  type Digest = d: seq<byte> | |d| == 32 witness seq(32, _ => 0)

  // ------------------------------------------------------- little-endian words

  function LittleEndian(n: nat, width: nat): (bytes: seq<byte>)
    ensures |bytes| == width
  {
    if width == 0 then [] else [n % 256] + LittleEndian(n / 256, width - 1)
  }

  function FromLittleEndian(bytes: seq<byte>): nat {
    if bytes == [] then 0 else bytes[0] + 256 * FromLittleEndian(bytes[1..])
  }

  function Pow256(width: nat): nat {
    if width == 0 then 1 else 256 * Pow256(width - 1)
  }

  lemma {:induction false} WordRoundTrip(n: nat, width: nat)
    requires n < Pow256(width)
    ensures FromLittleEndian(LittleEndian(n, width)) == n
    decreases width
  {
    if width > 0 {
      WordRoundTrip(n / 256, width - 1);
      assert LittleEndian(n, width)[1..] == LittleEndian(n / 256, width - 1);
    }
  }

  lemma {:induction false} WordIsBounded(bytes: seq<byte>)
    ensures FromLittleEndian(bytes) < Pow256(|bytes|)
    decreases |bytes|
  {
    if bytes != [] {
      WordIsBounded(bytes[1..]);
    }
  }

  lemma EightBytes()
    ensures Pow256(8) == TWO_64
  {
    assert Pow256(4) == 0x1_0000_0000;
    assert Pow256(8) == 256 * (256 * (256 * (256 * Pow256(4))));
  }

  function Put64(n: uint64): (bytes: seq<byte>)
    ensures |bytes| == 8
  {
    LittleEndian(n, 8)
  }

  function Get64(bytes: seq<byte>): uint64
    requires |bytes| == 8
  {
    WordIsBounded(bytes);
    EightBytes();
    FromLittleEndian(bytes)
  }

  lemma Word64RoundTrip(n: uint64)
    ensures Get64(Put64(n)) == n
  {
    EightBytes();
    WordRoundTrip(n, 8);
  }

  /** A byte as a number. */
  function At(bytes: seq<byte>, i: nat): nat
    requires i < |bytes|
  {
    bytes[i]
  }

  /** The least significant byte comes first. */
  lemma LeastSignificantFirst(bytes: seq<byte>)
    requires |bytes| == 8
    ensures Get64(bytes) ==
      At(bytes, 0) + 0x100 * At(bytes, 1) + 0x1_0000 * At(bytes, 2) + 0x100_0000 * At(bytes, 3) +
      0x1_0000_0000 * (At(bytes, 4) + 0x100 * At(bytes, 5) + 0x1_0000 * At(bytes, 6) + 0x100_0000 * At(bytes, 7))
  {
    FourBytes(bytes[4..]);
    FourBytes(bytes[..4]);
    FrontAndBack(bytes[..4], bytes[4..]);
    assert bytes == bytes[..4] + bytes[4..];
    assert Pow256(4) == 0x1_0000_0000;
  }

  lemma FourBytes(bytes: seq<byte>)
    requires |bytes| == 4
    ensures FromLittleEndian(bytes) ==
      At(bytes, 0) + 0x100 * At(bytes, 1) + 0x1_0000 * At(bytes, 2) + 0x100_0000 * At(bytes, 3)
  {
    assert bytes[1..][1..] == bytes[2..] && bytes[2..][1..] == bytes[3..] && bytes[3..][1..] == [];
    assert FromLittleEndian(bytes[3..]) == At(bytes, 3);
    assert FromLittleEndian(bytes[2..]) == At(bytes, 2) + 256 * FromLittleEndian(bytes[3..]);
    assert FromLittleEndian(bytes[1..]) == At(bytes, 1) + 256 * FromLittleEndian(bytes[2..]);
  }

  lemma {:induction false} FrontAndBack(front: seq<byte>, back: seq<byte>)
    ensures FromLittleEndian(front + back) == FromLittleEndian(front) + Pow256(|front|) * FromLittleEndian(back)
    decreases |front|
  {
    if front == [] {
      assert front + back == back;
    } else {
      FrontAndBack(front[1..], back);
      assert (front + back)[1..] == front[1..] + back;
      TimesMore(Pow256(|front| - 1), FromLittleEndian(back));
    }
  }

  lemma TimesMore(a: nat, b: nat)
    ensures 256 * (a * b) == 256 * a * b
  {
  }

  // -------------------------------------------------------------- hexadecimal

  const HEX_DIGITS := "0123456789abcdef"

  /** The same letter in lower case. */
  function Lowered(c: char): char {
    if 'A' <= c <= 'Z' then 'a' + (c - 'A') else c
  }

  function HexDigit(v: nat): char
    requires v < 16
  {
    if v < 10 then '0' + v as char else 'a' + (v - 10) as char
  }

  function HexValue(c: char): nat
    requires IsHexDigit(c)
    ensures HexValue(c) < 16
  {
    if '0' <= c <= '9' then (c - '0') as nat
    else if 'a' <= c <= 'f' then (c - 'a') as nat + 10
    else (c - 'A') as nat + 10
  }

  /** hex.EncodeToString */
  function HexOf(bytes: seq<byte>): (s: string)
    ensures |s| == 2 * |bytes|
  {
    if bytes == [] then "" else [HexDigit(bytes[0] / 16), HexDigit(bytes[0] % 16)] + HexOf(bytes[1..])
  }

  /** What hex.DecodeString returns, error or not: the bytes before the first pair that is not one. */
  function Decoded(s: string): seq<byte> {
    if |s| < 2 || !IsHexDigit(s[0]) || !IsHexDigit(s[1]) then []
    else [16 * HexValue(s[0]) + HexValue(s[1])] + Decoded(s[2..])
  }

  predicate DecodesFully(s: string) {
    |s| % 2 == 0 && forall i :: 0 <= i < |s| ==> IsHexDigit(s[i])
  }

  predicate IsLower(c: char) {
    '0' <= c <= '9' || 'a' <= c <= 'f'
  }

  predicate IsLowerHex(s: string) {
    forall i :: 0 <= i < |s| ==> IsLower(s[i])
  }

  lemma {:induction false} EncodeThenDecode(bytes: seq<byte>)
    ensures Decoded(HexOf(bytes)) == bytes
    ensures DecodesFully(HexOf(bytes)) && IsLowerHex(HexOf(bytes))
  {
    if bytes != [] {
      EncodeThenDecode(bytes[1..]);
      assert HexOf(bytes)[2..] == HexOf(bytes[1..]);
    }
  }

  lemma DigitRoundTrip(c: char)
    requires IsHexDigit(c)
    ensures HexDigit(HexValue(c)) == c <==> IsLower(c)
  {
  }

  lemma LowerPair(c: char, d: char, rest: string)
    ensures IsLowerHex([c, d] + rest) <==> IsLower(c) && IsLower(d) && IsLowerHex(rest)
  {
    var s := [c, d] + rest;
    assert s[0] == c && s[1] == d;
    assert forall i :: 0 <= i < |rest| ==> s[i + 2] == rest[i];
  }

  lemma SamePair(a: char, b: char, rest: string, c: char, d: char, tail: string)
    ensures [a, b] + rest == [c, d] + tail <==> a == c && b == d && rest == tail
  {
    if [a, b] + rest == [c, d] + tail {
      assert ([a, b] + rest)[0] == ([c, d] + tail)[0];
      assert ([a, b] + rest)[1] == ([c, d] + tail)[1];
      assert ([a, b] + rest)[2..] == rest && ([c, d] + tail)[2..] == tail;
    }
  }

  lemma {:induction false} DecodeThenEncode(s: string)
    requires DecodesFully(s)
    ensures |Decoded(s)| * 2 == |s|
    ensures HexOf(Decoded(s)) == s <==> IsLowerHex(s)
    decreases |s|
  {
    if s != [] {
      var c, d, rest := s[0], s[1], s[2..];
      DecodeThenEncode(rest);
      var v := 16 * HexValue(c) + HexValue(d);
      assert v / 16 == HexValue(c) && v % 16 == HexValue(d);
      assert Decoded(s)[1..] == Decoded(rest);
      assert s == [c, d] + rest;
      DigitRoundTrip(c);
      DigitRoundTrip(d);
      LowerPair(c, d, rest);
      SamePair(HexDigit(HexValue(c)), HexDigit(HexValue(d)), HexOf(Decoded(rest)), c, d, rest);
    }
  }

  /** Equal texts are equal bytes. */
  lemma HexIsInjective(a: seq<byte>, b: seq<byte>)
    requires HexOf(a) == HexOf(b)
    ensures a == b
  {
    EncodeThenDecode(a);
    EncodeThenDecode(b);
  }

  /**
   * A chunk is stored under the digest text of its upload and looked for under
   * the digest an index holds. Both name the same object exactly when the text
   * was lower case.
   */
  lemma SameObjectIffLowerCase(digest: string)
    requires IsDigest(digest)
    ensures ChunkObjectName(HexOf(Decoded(digest))) == ChunkObjectName(digest) <==> IsLowerHex(digest)
  {
    DecodeThenEncode(digest);
    EncodeThenDecode(Decoded(digest));
    var again := HexOf(Decoded(digest));
    if ChunkObjectName(again) == ChunkObjectName(digest) {
      NameThenDigest(digest);
      NameThenDigest(again);
    }
  }

  /** A digest text is 64 hexadecimal digits, in either case. */
  lemma DigestsAreHexDigits(d: string)
    ensures IsDigest(d) <==> |d| == 64 && forall i :: 0 <= i < |d| ==> Lowered(d[i]) in HEX_DIGITS
  {
    forall i | 0 <= i < |d| ensures IsHexDigit(d[i]) <==> Lowered(d[i]) in HEX_DIGITS {
      HexDigitsAreListed(d[i]);
    }
  }

  lemma HexDigitsAreListed(c: char)
    ensures IsHexDigit(c) <==> Lowered(c) in HEX_DIGITS
  {
    if IsHexDigit(c) {
      DigitLowers(c);
      HexDigitIsListed(HexValue(c));
    }
  }

  /** Each byte is two digits, the high one first. */
  lemma {:induction false} HighDigitFirst(bytes: seq<byte>, i: nat)
    requires i < |bytes|
    ensures HexOf(bytes)[2 * i] == HEX_DIGITS[bytes[i] / 16] && HexOf(bytes)[2 * i + 1] == HEX_DIGITS[bytes[i] % 16]
    decreases |bytes|
  {
    if i == 0 {
      HexDigitIsListed(bytes[0] / 16);
      HexDigitIsListed(bytes[0] % 16);
    } else {
      HighDigitFirst(bytes[1..], i - 1);
    }
  }

  lemma HexDigitIsListed(v: nat)
    requires v < 16
    ensures HexDigit(v) == HEX_DIGITS[v]
  {
  }

  lemma DigitLowers(c: char)
    requires IsHexDigit(c)
    ensures HexDigit(HexValue(c)) == Lowered(c)
  {
  }

  function LoweredAll(s: string): string {
    seq(|s|, i requires 0 <= i < |s| => Lowered(s[i]))
  }

  lemma LoweredPair(c: char, d: char, rest: string)
    ensures LoweredAll([c, d] + rest) == [Lowered(c), Lowered(d)] + LoweredAll(rest)
  {
  }

  /** Decoding does not mind the case of the digits, and loses nothing else. */
  lemma {:induction false} DecodeThenEncodeLowers(s: string)
    requires DecodesFully(s)
    ensures HexOf(Decoded(s)) == LoweredAll(s)
    decreases |s|
  {
    if s != [] {
      var c, d, rest := s[0], s[1], s[2..];
      DecodeThenEncodeLowers(rest);
      var v := 16 * HexValue(c) + HexValue(d);
      assert v / 16 == HexValue(c) && v % 16 == HexValue(d);
      assert Decoded(s)[1..] == Decoded(rest);
      assert s == [c, d] + rest;
      DigitLowers(c);
      DigitLowers(d);
      LoweredPair(c, d, rest);
    }
  }

  /** A text that stops being hexadecimal decodes up to there. */
  lemma {:induction false} DecodesUpTo(good: string, bad: string)
    requires DecodesFully(good) && (|bad| < 2 || !IsHexDigit(bad[0]) || !IsHexDigit(bad[1]))
    ensures Decoded(good + bad) == Decoded(good)
    decreases |good|
  {
    if good == [] {
      assert good + bad == bad;
    } else {
      DecodesUpTo(good[2..], bad);
      assert (good + bad)[2..] == good[2..] + bad;
    }
  }
}
