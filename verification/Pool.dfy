/** The bump allocator of src/memory.c: blocks of one pool never overlap. */
module Pools {

  const POOL_CHUNK_SIZE := 3000
  /** The link to the next chunk at the start of every chunk. */
  const HEADER := 8

  /** Bytes `offset` to `offset + size` of one chunk. */
  datatype Block = Block(chunk: nat, offset: nat, size: nat)
  {
    predicate Disjoint(other: Block) {
      chunk != other.chunk || offset + size <= other.offset || other.offset + other.size <= offset
    }
  }

  /** Rounds up to a multiple of eight. */
  function RoundUp(n: nat): (r: nat)
    ensures n <= r < n + 8 && r % 8 == 0
  {
    (n + 7) / 8 * 8
  }

  /** Behind the header of its chunk, inside it, and aligned. */
  predicate InChunk(chunks: seq<nat>, b: Block) {
    && b.chunk < |chunks|
    && HEADER <= b.offset && b.offset % 8 == 0
    && b.offset + b.size <= chunks[b.chunk]
  }

  /** All blocks lie in their chunks, apart from each other and from the free space. */
  ghost predicate Apart(chunks: seq<nat>, blocks: seq<Block>, free: Block) {
    && (free.size > 0 ==> InChunk(chunks, free))
    && (forall i :: 0 <= i < |blocks| ==> blocks[i].size > 0 && InChunk(chunks, blocks[i]))
    && (forall i :: 0 <= i < |blocks| ==> free.size > 0 ==> blocks[i].Disjoint(free))
    && (forall i, j :: 0 <= i < j < |blocks| ==> blocks[i].Disjoint(blocks[j]))
  }

  class Pool {
    /** The sizes of the chunks, in the order they were obtained. */
    var chunks: seq<nat>
    /** The chunk that small blocks come from, and how far it is used. */
    var pChunk: nat
    var pSpace: nat
    var nSpace: nat
    /** The blocks handed out so far. */
    ghost var blocks: seq<Block>

    ghost function Free(): Block
      reads this
    {
      Block(pChunk, pSpace, nSpace)
    }

    ghost predicate Valid()
      reads this
    {
      Apart(chunks, blocks, Free()) && nSpace % 8 == 0
    }

    constructor ()
      ensures Valid() && chunks == [] && blocks == []
    {
      chunks, pChunk, pSpace, nSpace, blocks := [], 0, 0, 0, [];
    }

    /** Gives all chunks back. */
    method Clear()
      modifies this
      ensures Valid() && chunks == [] && blocks == []
    {
      chunks, pChunk, pSpace, nSpace, blocks := [], 0, 0, 0, [];
    }

    /** Hands out a block of at least `n` bytes: a chunk of its own if it is large, else the front of the free space. */
    method PoolMalloc(n: nat) returns (b: Block)
      requires Valid() && n > 0
      modifies this
      ensures Valid() && blocks == old(blocks) + [b]
      ensures b.size == RoundUp(n) && InChunk(chunks, b)
      ensures forall i :: 0 <= i < |old(blocks)| ==> blocks[i].Disjoint(b)
      ensures old(chunks) <= chunks && |chunks| <= |old(chunks)| + 1
      ensures b.size <= POOL_CHUNK_SIZE / 4 && b.size <= old(nSpace) ==> chunks == old(chunks)
    {
      var size := RoundUp(n);
      if size > POOL_CHUNK_SIZE / 4 {
        b := Block(|chunks|, HEADER, size);
        chunks := chunks + [size + HEADER];
      } else {
        if nSpace < size {
          pChunk, pSpace, nSpace := |chunks|, HEADER, POOL_CHUNK_SIZE;
          chunks := chunks + [POOL_CHUNK_SIZE + HEADER];
        }
        b := Block(pChunk, pSpace, size);
        pSpace, nSpace := pSpace + size, nSpace - size;
      }
      blocks := blocks + [b];
    }
  }

  /** A list of requests, each block apart from all the others. */
  method Serve(pool: Pool, requests: seq<nat>) returns (given: seq<Block>)
    requires pool.Valid() && forall i :: 0 <= i < |requests| ==> requests[i] > 0
    modifies pool
    ensures pool.Valid() && |given| == |requests| && pool.blocks == old(pool.blocks) + given
    ensures forall i :: 0 <= i < |given| ==> given[i].size == RoundUp(requests[i]) && InChunk(pool.chunks, given[i])
    ensures forall i, j :: 0 <= i < j < |given| ==> given[i].Disjoint(given[j])
  {
    given := [];
    for k := 0 to |requests|
      invariant pool.Valid() && |given| == k && pool.blocks == old(pool.blocks) + given
      invariant forall i :: 0 <= i < k ==> given[i].size == RoundUp(requests[i])
    {
      var b := pool.PoolMalloc(requests[k]);
      given := given + [b];
    }
    Part(old(pool.blocks), given, pool.chunks, pool.Free());
  }

  lemma Part(before: seq<Block>, given: seq<Block>, chunks: seq<nat>, free: Block)
    requires Apart(chunks, before + given, free)
    ensures forall i :: 0 <= i < |given| ==> InChunk(chunks, given[i])
    ensures forall i, j :: 0 <= i < j < |given| ==> given[i].Disjoint(given[j])
  {
    var all := before + given;
    forall i | 0 <= i < |given|
      ensures InChunk(chunks, given[i])
    {
      assert all[|before| + i] == given[i];
    }
    forall i, j | 0 <= i < j < |given|
      ensures given[i].Disjoint(given[j])
    {
      assert all[|before| + i] == given[i] && all[|before| + j] == given[j];
    }
  }
}
