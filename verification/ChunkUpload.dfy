/** Storing one chunk: read it, check that it is not there yet, upload it. */
module ChunkUpload {
  import opened Wrappers
  import opened IndexBytes

  const MAX_BUFFERED: nat := 0x100_0000

  datatype ChunkRequest = ChunkRequest(objectName: string, encodedSize: nat)

  datatype ChunkError = BadBody | StatFailed | PutFailed

  /** What a PUT does. One that reports an error may still have taken effect. */
  datatype PutOutcome = Stored | NotStored | StoredUnreported

  /** A request body: some bytes, then the end of the stream, or an error if it is broken. */
  class BodyReader {
    const data: seq<byte>
    const broken: bool
    var pos: nat

    constructor (data: seq<byte>, broken: bool)
      ensures this.data == data && this.broken == broken && pos == 0
    {
      this.data, this.broken, pos := data, broken, 0;
    }

    ghost predicate Valid()
      reads this
    {
      pos <= |data|
    }

    /** io.ReadFull */
    method ReadFull(n: nat) returns (ok: bool, bytes: seq<byte>)
      requires Valid()
      modifies this
      ensures Valid()
      ensures ok <==> old(pos) + n <= |data|
      ensures ok ==> bytes == data[old(pos)..old(pos) + n] && pos == old(pos) + n
    {
      bytes := [];
      var start := pos;
      while |bytes| < n && pos < |data|
        invariant Valid() && pos == start + |bytes| && |bytes| <= n
        invariant bytes == data[start..pos]
        decreases n - |bytes|
      {
        bytes := bytes + [data[pos]];
        pos := pos + 1;
      }
      ok := |bytes| == n;
    }

    /** io.Copy(io.Discard, body) */
    method Drain() returns (ok: bool, count: nat)
      requires Valid()
      modifies this
      ensures Valid() && pos == |data|
      ensures ok <==> !broken
      ensures count == |data| - old(pos)
    {
      count := |data| - pos;
      pos := |data|;
      ok := !broken;
    }
  }

  /** The bucket, with the failures its next requests meet. */
  class ChunkStore {
    var objects: map<string, seq<byte>>
    var puts: nat

    constructor (objects: map<string, seq<byte>>)
      ensures this.objects == objects && puts == 0
    {
      this.objects, puts := objects, 0;
    }

    method Put(name: string, payload: seq<byte>, outcome: PutOutcome) returns (ok: bool)
      modifies this
      ensures ok <==> outcome.Stored?
      ensures objects == if outcome.NotStored? then old(objects) else old(objects)[name := payload]
      ensures puts == old(puts) + 1
    {
      puts := puts + 1;
      if !outcome.NotStored? {
        objects := objects[name := payload];
      }
      ok := outcome.Stored?;
    }

    /**
     * A PUT of `size` bytes that takes them from the body as it goes. The store
     * answers once it has read all of them, or `asked` of them; the upload
     * fails when the body ends before that. What is short is never stored.
     */
    method PutStream(name: string, body: BodyReader, size: nat, asked: nat, outcome: PutOutcome)
      returns (ok: bool, count: nat)
      requires body.Valid()
      modifies this, body
      ensures body.Valid() && body.pos == old(body.pos) + count
      ensures count <= size && (count == size <==> size <= asked && old(body.pos) + size <= |body.data|)
      ensures count == size ==> (ok <==> outcome.Stored?)
      ensures count < size && count < asked ==> !ok && body.pos == |body.data|
      ensures count < size && count >= asked ==> (ok <==> outcome.Stored?) && count == asked
      ensures objects == if count < size || outcome.NotStored? then old(objects)
                         else old(objects)[name := body.data[old(body.pos)..old(body.pos) + size]]
      ensures puts == old(puts) + 1
    {
      puts := puts + 1;
      var start := body.pos;
      var payload := [];
      while |payload| < size && |payload| < asked && body.pos < |body.data|
        modifies body
        invariant body.Valid() && body.pos == start + |payload| && |payload| <= size && |payload| <= asked
        invariant payload == body.data[start..body.pos]
        decreases size - |payload|
      {
        payload := payload + [body.data[body.pos]];
        body.pos := body.pos + 1;
      }
      count := |payload|;
      if count < size && count < asked {
        return false, count;
      }
      if count == size && !outcome.NotStored? {
        objects := objects[name := payload];
      }
      ok := outcome.Stored?;
    }
  }

  /** A body that is exactly the announced chunk. */
  predicate IsWhole(data: seq<byte>, broken: bool, size: nat) {
    !broken && |data| == size
  }

  method DrainChunkBody(body: BodyReader, expected: nat) returns (ok: bool)
    requires body.Valid()
    modifies body
    ensures body.Valid()
    ensures ok <==> !body.broken && |body.data| - old(body.pos) == expected
  {
    var drained, count := body.Drain();
    ok := drained && count == expected;
  }

  method StoreBufferedChunk(store: ChunkStore, request: ChunkRequest, body: BodyReader, statFails: bool,
                            outcome: PutOutcome)
    returns (r: Result<bool, ChunkError>)
    requires body.pos == 0
    modifies store, body
    ensures r.Ok? <==> IsWhole(body.data, body.broken, request.encodedSize) && !statFails &&
                       (request.objectName in old(store.objects) || outcome.Stored?)
    ensures r.Ok? ==> r.value == (request.objectName in old(store.objects)) && request.objectName in store.objects
    ensures store.objects == old(store.objects) ||
            (request.objectName !in old(store.objects) && IsWhole(body.data, body.broken, request.encodedSize) &&
             store.objects == old(store.objects)[request.objectName := body.data])
    ensures store.puts == old(store.puts) +
            (if IsWhole(body.data, body.broken, request.encodedSize) && !statFails &&
                request.objectName !in old(store.objects) then 1 else 0)
    ensures request.objectName in store.objects <==>
            request.objectName in old(store.objects) ||
            (IsWhole(body.data, body.broken, request.encodedSize) && !statFails && !outcome.NotStored?)
  {
    var read, payload := body.ReadFull(request.encodedSize);
    if !read {
      return Err(BadBody);
    }
    var drained, trailing := body.Drain();
    if !drained || trailing != 0 {
      return Err(BadBody);
    }
    assert payload == body.data;
    if statFails {
      return Err(StatFailed);
    }
    if request.objectName in store.objects {
      return Ok(true);
    }
    var stored := store.Put(request.objectName, payload, outcome);
    if !stored {
      return Err(PutFailed);
    }
    return Ok(false);
  }

  /**
   * The single attempt for large chunks: the body goes straight into the
   * upload. A store that answers before it has read all of it is not believed.
   */
  method StoreStreamedChunk(store: ChunkStore, request: ChunkRequest, body: BodyReader, statFails: bool,
                            asked: nat, outcome: PutOutcome)
    returns (r: Result<bool, ChunkError>)
    requires body.pos == 0
    modifies store, body
    ensures r.Ok? <==> IsWhole(body.data, body.broken, request.encodedSize) && !statFails &&
                       (request.objectName in old(store.objects) || (outcome.Stored? && request.encodedSize <= asked))
    ensures r.Ok? ==> r.value == (request.objectName in old(store.objects)) && request.objectName in store.objects
    ensures store.objects == old(store.objects) ||
            (request.objectName !in old(store.objects) && request.encodedSize <= |body.data| &&
             store.objects == old(store.objects)[request.objectName := body.data[..request.encodedSize]])
    ensures store.puts == old(store.puts) + (if !statFails && request.objectName !in old(store.objects) then 1 else 0)
    ensures request.objectName in store.objects <==>
            request.objectName in old(store.objects) ||
            (request.encodedSize <= |body.data| && request.encodedSize <= asked && !statFails && !outcome.NotStored?)
  {
    if statFails {
      return Err(StatFailed);
    }
    if request.objectName in store.objects {
      var drained := DrainChunkBody(body, request.encodedSize);
      if !drained {
        return Err(BadBody);
      }
      return Ok(true);
    }
    var stored, counted := store.PutStream(request.objectName, body, request.encodedSize, asked, outcome);
    if !stored {
      return Err(PutFailed);
    }
    if counted != request.encodedSize {
      return Err(BadBody);
    }
    var drained, trailing := body.Drain();
    if !drained || trailing != 0 {
      return Err(BadBody);
    }
    return Ok(false);
  }

  /**
   * Both paths succeed for the same requests and answer the same, if the store
   * reads what it is sent. Success means that the chunk is in the bucket: the
   * one that was there, or the whole body, and it took one PUT or none.
   * Whatever happens, nothing but this one object can change, an object that
   * was there is never overwritten, and what is stored under the name is as
   * long as was announced. Only a chunk too large to buffer can be stored and
   * refused all the same, when its body breaks or goes on, and only for it
   * does it matter how far the store reads before it answers.
   */
  method StoreChunk(store: ChunkStore, request: ChunkRequest, body: BodyReader, statFails: bool,
                    asked: nat, outcome: PutOutcome)
    returns (r: Result<bool, ChunkError>)
    requires body.pos == 0
    modifies store, body
    ensures r.Ok? <==> IsWhole(body.data, body.broken, request.encodedSize) && !statFails &&
                       (request.objectName in old(store.objects) ||
                        (outcome.Stored? && (request.encodedSize <= 0x100_0000 || request.encodedSize <= asked)))
    ensures r.Ok? ==> r.value == (request.objectName in old(store.objects)) && request.objectName in store.objects
    ensures r == Ok(true) ==> store.objects == old(store.objects) && store.puts == old(store.puts)
    ensures r == Ok(false) ==>
      store.objects == old(store.objects)[request.objectName := body.data] && store.puts == old(store.puts) + 1
    ensures old(store.puts) <= store.puts <= old(store.puts) + 1
    ensures store.puts == old(store.puts) ==> store.objects == old(store.objects)
    ensures store.objects == old(store.objects) ||
            (request.objectName !in old(store.objects) && request.encodedSize <= |body.data| &&
             store.objects == old(store.objects)[request.objectName := body.data[..request.encodedSize]])
    ensures request.objectName in store.objects <==>
            request.objectName in old(store.objects) ||
            (!statFails && !outcome.NotStored? &&
             (if request.encodedSize <= 0x100_0000 then IsWhole(body.data, body.broken, request.encodedSize)
              else request.encodedSize <= |body.data| && request.encodedSize <= asked))
  {
    if request.encodedSize <= MAX_BUFFERED {
      r := StoreBufferedChunk(store, request, body, statFails, outcome);
    } else {
      r := StoreStreamedChunk(store, request, body, statFails, asked, outcome);
    }
    assert |body.data| == request.encodedSize ==> body.data[..request.encodedSize] == body.data;
  }
}
