/** A fixed index over all the requests that write it, and what its file holds in the end. */
module FixedSessions {
  import opened Wrappers
  import opened Sums
  import opened IndexBytes
  import opened IndexFile
  import opened FixedIndex

  /** One PUT of digests and of the offsets they belong to. */
  datatype Request = Request(digests: seq<string>, offsets: seq<uint64>)

  /** The handler refuses all of a request whose lists differ in length, or that leaves the chunk boundaries. */
  predicate Accepted(r: Request, chunkSize: uint64)
    requires chunkSize > 0
  {
    |r.digests| == |r.offsets| && forall i :: 0 <= i < |r.offsets| ==> r.offsets[i] % chunkSize == 0
  }

  /** The last digest a request has for an offset, looking for it from the end. */
  function LastIn(digests: seq<string>, offsets: seq<uint64>, offset: nat): Option<string>
    requires |digests| == |offsets|
  {
    if digests == [] then None
    else
      var n := |digests| - 1;
      if offsets[n] == offset then Some(digests[n]) else LastIn(digests[..n], offsets[..n], offset)
  }

  /** The last digest any accepted request has for an offset. */
  function LastSent(requests: seq<Request>, chunkSize: uint64, offset: nat): Option<string>
    requires chunkSize > 0
  {
    if requests == [] then None
    else
      var n := |requests| - 1;
      if Accepted(requests[n], chunkSize) && LastIn(requests[n].digests, requests[n].offsets, offset).Some?
      then LastIn(requests[n].digests, requests[n].offsets, offset)
      else LastSent(requests[..n], chunkSize, offset)
  }

  /** One request changes what it names, to the last it says of it, and leaves every other assignment alone. */
  lemma {:induction false} AssignChangesOnly(before: Assignments, digests: seq<string>, offsets: seq<uint64>, o: uint64)
    requires |digests| == |offsets|
    ensures var after, last := AssignAll(before, digests, offsets), LastIn(digests, offsets, o);
      if last.Some? then o in after && after[o] == Decoded(last.value)
      else (o in after <==> o in before) && (o in before ==> after[o] == before[o])
    ensures LastIn(digests, offsets, o).Some? <==> o in offsets
    decreases |digests|
  {
    if digests != [] {
      var n := |digests| - 1;
      AssignChangesOnly(before, digests[..n], offsets[..n], o);
      assert offsets == offsets[..n] + [offsets[n]];
    }
  }

  /** The assignments are what was sent last, for every offset. */
  ghost predicate Remembers(a: Assignments, requests: seq<Request>, chunkSize: uint64)
    requires chunkSize > 0
  {
    forall o: uint64 :: RemembersOne(a, requests, chunkSize, o)
  }

  predicate RemembersOne(a: Assignments, requests: seq<Request>, chunkSize: uint64, o: uint64)
    requires chunkSize > 0
  {
    var last := LastSent(requests, chunkSize, o);
    (o in a <==> last.Some?) && (last.Some? ==> a[o] == Decoded(last.value))
  }

  lemma RemembersOneMore(before: Assignments, after: Assignments, requests: seq<Request>, n: nat, chunkSize: uint64)
    requires chunkSize > 0 && n < |requests| && Remembers(before, requests[..n], chunkSize)
    requires var r := requests[n];
      after == if Accepted(r, chunkSize) then AssignAll(before, r.digests, r.offsets) else before
    ensures Remembers(after, requests[..n + 1], chunkSize)
  {
    var r, sent := requests[n], requests[..n + 1];
    assert sent[..n] == requests[..n];
    forall o: uint64 ensures RemembersOne(after, sent, chunkSize, o) {
      assert RemembersOne(before, requests[..n], chunkSize, o);
      if Accepted(r, chunkSize) {
        AssignChangesOnly(before, r.digests, r.offsets, o);
      }
    }
  }

  /** A slot over which a decoded digest was copied: as much as there is, 32 bytes at most, then what was there. */
  predicate IsLaid(slot: seq<byte>, val: seq<byte>, was: seq<byte>)
    requires |slot| == |was| == 32
  {
    if |val| >= 32 then slot == val[..32] else slot[..|val|] == val && slot[|val|..] == was[|val|..]
  }

  /** The slots of an index whose blocks were all sent, or are kept from the one that is reused. */
  lemma SlotIsLastSent(file: seq<byte>, h: Header, base: seq<Digest>, a: Assignments, requests: seq<Request>,
                       chunkSize: uint64, j: nat)
    requires FileIs(file, h, Overlaid(base, a, h.size, h.chunkSize)) && j < |base| && j * h.chunkSize < h.size
    requires chunkSize > 0 && Remembers(a, requests, chunkSize)
    ensures |file| >= HEADER + 32 * j + 32
    ensures var last := LastSent(requests, chunkSize, j * h.chunkSize);
      var slot := file[HEADER + 32 * j..HEADER + 32 * j + 32];
      if last.None? then slot == base[j] else IsLaid(slot, Decoded(last.value), base[j])
  {
    assert RemembersOne(a, requests, chunkSize, j * h.chunkSize);
    assert file[HEADER + 32 * j..HEADER + 32 * j + 32] == Overlaid(base, a, h.size, h.chunkSize)[j];
  }

  /** Block j of a new index: the digest sent last for its offset, as far as it decodes, and zeros. */
  ghost predicate HoldsSent(file: seq<byte>, requests: seq<Request>, chunkSize: uint64, size: nat, j: nat)
    requires chunkSize > 0
  {
    j * chunkSize < size ==>
      |file| >= 4096 + 32 * j + 32 && LastSent(requests, chunkSize, j * chunkSize).Some? &&
      IsLaid(file[4096 + 32 * j..4096 + 32 * j + 32], Decoded(LastSent(requests, chunkSize, j * chunkSize).value),
             seq(32, _ => 0))
  }

  /** Block j of an index that reuses another: the digest sent last for its offset, over what was there. */
  ghost predicate HoldsSentOrKept(file: seq<byte>, was: seq<byte>, requests: seq<Request>, chunkSize: uint64, h: Header,
                                  j: nat)
    requires chunkSize > 0
  {
    j * h.chunkSize < h.size ==>
      |file| == |was| >= 4096 + 32 * j + 32 &&
      var slot, before := file[4096 + 32 * j..4096 + 32 * j + 32], was[4096 + 32 * j..4096 + 32 * j + 32];
      match LastSent(requests, chunkSize, j * h.chunkSize)
      case None => slot == before
      case Some(d) => IsLaid(slot, Decoded(d), before)
  }

  lemma NewHoldsSent(file: seq<byte>, h: Header, a: Assignments, requests: seq<Request>, j: nat)
    requires h.chunkSize > 0 && Remembers(a, requests, h.chunkSize)
    requires ClosesFresh(file, h, a) && NoHole(a, h.size, h.chunkSize)
    ensures HoldsSent(file, requests, h.chunkSize, h.size, j)
  {
    if j * h.chunkSize < h.size {
      forall k: nat | k < j + 1 ensures k * h.chunkSize in a {
        MulAtMost(k, j, h.chunkSize);
      }
      SlotIsThere(a, j + 1, h.chunkSize);
      assert RemembersOne(a, requests, h.chunkSize, j * h.chunkSize);
      SlotIsLastSent(file, h, ZeroSlots(|a|), a, requests, h.chunkSize, j);
    }
  }

  lemma ReusedHoldsSentOrKept(file: seq<byte>, was: seq<byte>, h: Header, h': Header, slots: seq<Digest>,
                              a: Assignments, requests: seq<Request>, chunkSize: uint64, j: nat)
    requires chunkSize > 0 && Remembers(a, requests, chunkSize)
    requires Reusable(was, h, slots) && ClosesReused(file, h', h, slots, a)
    ensures HoldsSentOrKept(file, was, requests, chunkSize, h, j)
  {
    if j * h.chunkSize < h.size {
      BlocksExactly(h.size, h.chunkSize, j);
      SlotIsLastSent(file, h', slots, a, requests, chunkSize, j);
      assert was[HEADER + 32 * j..HEADER + 32 * j + 32] == slots[j];
    }
  }

  predicate BlockSent(requests: seq<Request>, chunkSize: uint64, j: nat)
    requires chunkSize > 0
  {
    LastSent(requests, chunkSize, j * chunkSize).Some?
  }

  /** Every block below the size was sent in some accepted request. */
  ghost predicate AllSent(requests: seq<Request>, chunkSize: uint64, size: nat)
    requires chunkSize > 0
  {
    forall j: nat :: j * chunkSize < size ==> BlockSent(requests, chunkSize, j)
  }

  lemma HoleIsUnsent(a: Assignments, requests: seq<Request>, size: nat, chunkSize: uint64)
    requires chunkSize > 0 && size < TWO_64 && Remembers(a, requests, chunkSize)
    ensures NoHole(a, size, chunkSize) <==> AllSent(requests, chunkSize, size)
  {
    forall j: nat | j * chunkSize < size ensures j * chunkSize in a <==> BlockSent(requests, chunkSize, j) {
      assert RemembersOne(a, requests, chunkSize, j * chunkSize);
    }
  }

  // ------------------------------------------------------------- implementation

  /** The header, field by field: magic, UUID, time, checksum, size and chunk size. */
  predicate StartsWith(file: seq<byte>, uuid: Uuid, ctime: uint64, csum: Digest, size: uint64, chunkSize: uint64) {
    && |file| >= 4096 && file[..8] == [47, 127, 65, 237, 145, 253, 15, 205] && file[8..24] == uuid
    && Get64(file[24..32]) == ctime && file[32..64] == csum
    && Get64(file[64..72]) == size && Get64(file[72..80]) == chunkSize
  }

  lemma HeaderIsSpelled(file: seq<byte>, h: Header, slots: seq<Digest>)
    requires FileIs(file, h, slots) && h.magic == MAGIC_FIXED
    ensures StartsWith(file, h.uuid, h.ctime, h.csum, h.size, h.chunkSize)
  {
    Word64RoundTrip(h.ctime);
    Word64RoundTrip(h.size);
    Word64RoundTrip(h.chunkSize);
    assert file[..8] == file[0..8];
  }

  /** What closing a new index comes to, said of the requests alone. */
  ghost predicate AnswersNew(reply: CloseReply, requests: seq<Request>, size: uint64, chunkSize: uint64,
                             csum: Digest, uuid: Uuid, ctime: uint64)
    requires chunkSize > 0
  {
    && (reply.Closed? <==> AllSent(requests, chunkSize, size))
    && (reply.Closed? ==> StartsWith(reply.file, uuid, ctime, csum, size, chunkSize))
    && (reply.Closed? ==> forall j: nat :: HoldsSent(reply.file, requests, chunkSize, size, j))
  }

  /** What closing one that reuses an index a proxy wrote comes to. */
  ghost predicate AnswersReuse(reply: CloseReply, requests: seq<Request>, chunkSize: uint64, was: seq<byte>, h: Header,
                               csum: Digest, uuid: Uuid, ctime: uint64)
    requires chunkSize > 0
  {
    && reply.Closed? && StartsWith(reply.file, uuid, ctime, csum, h.size, h.chunkSize)
    && forall j: nat :: HoldsSentOrKept(reply.file, was, requests, chunkSize, h, j)
  }

  /**
   * All the requests of one index, as the handlers serve them, and the close.
   * A new index holds in block j the digest that was sent last for its offset,
   * in whichever request, and closes exactly when every block was sent. One
   * that reuses an index keeps what nobody sent.
   */
  method ServeWriter(size: uint64, chunkSize: uint64, requests: seq<Request>, reused: Option<Buffer>, reuses: bool,
                     csum: Digest, uuid: Uuid, ctime: uint64, ghost h: Header, ghost slots: seq<Digest>)
    returns (reply: CloseReply)
    requires chunkSize > 0 && size + chunkSize <= TWO_64
    requires reuses ==> reused.Some? && Reusable(reused.value.data, h, slots) && h.magic == MAGIC_FIXED
    ensures !reuses ==> AnswersNew(reply, requests, size, chunkSize, csum, uuid, ctime)
    ensures reuses ==> AnswersReuse(reply, requests, chunkSize, reused.value.data, h, csum, uuid, ctime)
  {
    var writer := new Writer(size, chunkSize, reuses);
    for n := 0 to |requests|
      invariant fresh(writer) && writer.size == size && writer.chunkSize == chunkSize && writer.reuses == reuses
      invariant Remembers(writer.assignments, requests[..n], chunkSize)
    {
      ghost var before := writer.assignments;
      var answer := writer.Assign(requests[n].digests, requests[n].offsets);
      assert answer.Assigned? <==> Accepted(requests[n], chunkSize);
      RemembersOneMore(before, writer.assignments, requests, n, chunkSize);
    }
    assert requests[..|requests|] == requests;
    if reuses {
      ReusableIsReworked(reused.value, h, slots, csum, uuid, ctime, writer.assignments);
      assert csum[..32] == csum;
    }
    reply := writer.Close(csum, uuid, ctime, reused);
    if reuses {
      var h' := h.(csum := csum, uuid := uuid, ctime := ctime);
      HeaderIsSpelled(reply.file, h', Overlaid(slots, writer.assignments, h.size, h.chunkSize));
      forall j: nat ensures HoldsSentOrKept(reply.file, reused.value.data, requests, chunkSize, h, j) {
        ReusedHoldsSentOrKept(reply.file, reused.value.data, h, h', slots, writer.assignments, requests, chunkSize, j);
      }
    } else {
      HoleIsUnsent(writer.assignments, requests, size, chunkSize);
      if reply.Closed? {
        var h' := Header(MAGIC_FIXED, uuid, ctime, csum[..32], size, chunkSize);
        assert csum[..32] == csum;
        HeaderIsSpelled(reply.file, h', Overlaid(ZeroSlots(|writer.assignments|), writer.assignments, size, chunkSize));
        forall j: nat ensures HoldsSent(reply.file, requests, chunkSize, size, j) {
          NewHoldsSent(reply.file, h', writer.assignments, requests, j);
        }
      }
    }
  }
}
