/**
 * zlib as an abstract pair of stateful coders. A deterministic coder's state is a function of the calls made so
 * far, so the compressor is given the blocks it has compressed and the decompressor the chunks it has been fed.
 */
module Zlib {
  import opened Octets
  import opened HeaderBlock

  /**
   * deflate: the sync-flushed chunk for a block. inflate: what one successful call writes into the output vector,
   * whose capacity is Capacity(chunk), or nothing if the chunk cannot be decompressed.
   */
  datatype Zlib = Zlib(deflate: (seq<Bytes>, Bytes) -> Bytes, inflate: (seq<Bytes>, Bytes) -> Option<Bytes>)

  /** `compressed.len() * 4 + 512`: the loop stops at the first successful call, so this is all a block can have. */
  function Capacity(chunk: Bytes): nat {
    |chunk| * 4 + 512
  }

  function Cut(b: Bytes, n: nat): Bytes {
    if |b| <= n then b else b[..n]
  }

  /** The chunks a fresh compressor makes of a run of blocks. */
  function Chunks(z: Zlib, raws: seq<Bytes>): seq<Bytes> {
    if raws == [] then [] else Chunks(z, Init(raws)) + [z.deflate(Init(raws), Last(raws))]
  }

  predicate Fits(z: Zlib, raws: seq<Bytes>, raw: Bytes) {
    |raw| <= Capacity(z.deflate(raws, raw))
  }

  predicate AllFit(z: Zlib, raws: seq<Bytes>) {
    raws == [] || (AllFit(z, Init(raws)) && Fits(z, Init(raws), Last(raws)))
  }

  /** The one law: as long as every block so far fitted, the next one comes back, cut to the capacity. */
  ghost predicate ZlibLaw(z: Zlib) {
    forall raws, raw :: AllFit(z, raws) ==>
      z.inflate(Chunks(z, raws), z.deflate(raws, raw)) == Some(Cut(raw, Capacity(z.deflate(raws, raw))))
  }

  lemma ChunksAppend(z: Zlib, raws: seq<Bytes>, raw: Bytes)
    ensures Chunks(z, raws + [raw]) == Chunks(z, raws) + [z.deflate(raws, raw)]
    ensures AllFit(z, raws + [raw]) <==> AllFit(z, raws) && Fits(z, raws, raw)
  {
    assert Init(raws + [raw]) == raws;
  }

  lemma {:induction false} ChunksLength(z: Zlib, raws: seq<Bytes>)
    ensures |Chunks(z, raws)| == |raws|
    decreases |raws|
  {
    if raws != [] { ChunksLength(z, Init(raws)); }
  }

  // ---------------------------------------------------------------------------
  // Two coders that obey the law
  // ---------------------------------------------------------------------------

  /** Stamps each chunk with its sequence number; a decompressor that has missed a chunk rejects the next one. */
  function Stamped(): Zlib {
    Zlib(
      (raws: seq<Bytes>, raw: Bytes) => [|raws| % 0x100] + raw,
      (chunks: seq<Bytes>, chunk: Bytes) =>
        if chunk != [] && chunk[0] == |chunks| % 0x100 then Some(chunk[1..]) else None)
  }

  lemma StampedObeysTheLaw()
    ensures ZlibLaw(Stamped())
    ensures forall raws, raw :: Fits(Stamped(), raws, raw)
  {
    var z := Stamped();
    forall raws: seq<Bytes>, raw: Bytes
      ensures z.inflate(Chunks(z, raws), z.deflate(raws, raw)) == Some(Cut(raw, Capacity(z.deflate(raws, raw))))
    {
      ChunksLength(z, raws);
    }
  }

  /** The last four bytes of every chunk that a sync flush ends. */
  const FLUSHED: Bytes := [0, 0, 0xFF, 0xFF]

  /** A back-reference to the whole previous block, in twelve bytes. */
  const SAME_AGAIN: Bytes := [1, 0, 0, 0, 0, 0, 0, 0, 0, 0, 0, 0]

  /** The block that the last chunk stands for. */
  function LastBlock(chunks: seq<Bytes>): Bytes {
    if chunks == [] then []
    else
      var chunk := Last(chunks);
      if chunk == SAME_AGAIN + FLUSHED || |chunk| < 5 then LastBlock(Init(chunks)) else chunk[1..|chunk| - 4]
  }

  /** Stores a block as it is, but refers back when the block before was the same, as deflate does with its window. */
  function Repeating(): Zlib {
    Zlib(
      (raws: seq<Bytes>, raw: Bytes) =>
        if raws != [] && Last(raws) == raw then SAME_AGAIN + FLUSHED else [0] + raw + FLUSHED,
      (chunks: seq<Bytes>, chunk: Bytes) =>
        if chunk == SAME_AGAIN + FLUSHED then Some(Cut(LastBlock(chunks), Capacity(chunk)))
        else if |chunk| >= 5 && chunk[0] == 0 then Some(Cut(chunk[1..|chunk| - 4], Capacity(chunk)))
        else None)
  }

  lemma StoredChunk(raw: Bytes)
    ensures var chunk := [0] + raw + FLUSHED;
      chunk != SAME_AGAIN + FLUSHED && |chunk| == |raw| + 5 && chunk[1..|chunk| - 4] == raw
  {
    assert ([0] + raw + FLUSHED)[0] == 0 && (SAME_AGAIN + FLUSHED)[0] == 1;
  }

  lemma {:induction false} LastBlockIs(raws: seq<Bytes>)
    requires raws != []
    ensures LastBlock(Chunks(Repeating(), raws)) == Last(raws)
    decreases |raws|
  {
    var before, raw := Init(raws), Last(raws);
    StoredChunk(raw);
    assert Init(Chunks(Repeating(), raws)) == Chunks(Repeating(), before);
    if before != [] { LastBlockIs(before); }
  }

  lemma RepeatingObeysTheLaw()
    ensures ZlibLaw(Repeating())
    ensures forall raw :: Fits(Repeating(), [], raw)
    ensures forall raws, raw :: raws != [] && Last(raws) == raw ==> (Fits(Repeating(), raws, raw) <==> |raw| <= 576)
  {
    var z := Repeating();
    forall raws: seq<Bytes>, raw: Bytes
      ensures z.inflate(Chunks(z, raws), z.deflate(raws, raw)) == Some(Cut(raw, Capacity(z.deflate(raws, raw))))
    {
      StoredChunk(raw);
      if raws != [] { LastBlockIs(raws); }
    }
    assert |SAME_AGAIN + FLUSHED| == 16;
    forall raw ensures Fits(z, [], raw) { StoredChunk(raw); }
  }
}
