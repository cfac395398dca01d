/** How sequential reads of `buffsize` bytes cut a file into chunks, numbered from one. */
module Chunks {
  import opened Bytes

  function Min(a: int, b: int): int { if a <= b then a else b }

  function Max(a: int, b: int): int { if a > b then a else b }

  /** Where chunk `k + 1` of a file of `len` bytes starts. */
  function Off(size: nat, len: nat, k: nat): (r: nat)
    ensures r <= len
  {
    Min(k * size, len)
  }

  /** The number of chunks in a file of `len` bytes. */
  function ChunkCount(size: nat, len: nat): nat
    requires size > 0
  {
    (len + size - 1) / size
  }

  function Chunk(content: seq<byte>, size: nat, s: nat): seq<byte>
    requires s >= 1
  {
    OffMonotone(size, |content|, s - 1, s);
    content[Off(size, |content|, s - 1)..Off(size, |content|, s)]
  }

  /** `fread` of at most `size` bytes at position `pos`. */
  function Fread(content: seq<byte>, size: nat, pos: nat): (r: seq<byte>)
    requires pos <= |content|
    ensures |r| <= size && pos + |r| <= |content|
  {
    content[pos..Min(pos + size, |content|)]
  }

  lemma OffMonotone(size: nat, len: nat, k: nat, m: nat)
    requires k <= m
    ensures Off(size, len, k) <= Off(size, len, m)
  {
    ProductOrder(size, k, m);
  }

  lemma OffStep(size: nat, len: nat, k: nat)
    ensures Off(size, len, k + 1) == Min(Off(size, len, k) + size, len)
  {
    assert (k + 1) * size == k * size + size;
  }

  /** Exactly the chunks numbered up to the count are not empty, and all but the last are full. */
  lemma OffAtCount(size: nat, len: nat, k: nat)
    requires size > 0
    ensures Off(size, len, k) < len <==> k < ChunkCount(size, len)
    ensures k + 1 < ChunkCount(size, len) ==> Off(size, len, k) + size < len
  {
    var n := ChunkCount(size, len);
    DivBounds(len + size - 1, size);
    if k < n {
      ProductOrder(size, k + 1, n);
      assert (k + 1) * size == k * size + size;
      if k + 1 < n {
        ProductOrder(size, k + 2, n);
        assert (k + 2) * size == k * size + 2 * size;
      }
    } else {
      ProductOrder(size, n, k);
    }
  }

  lemma ProductOrder(size: nat, a: nat, b: nat)
    requires a <= b
    ensures a * size <= b * size
  {
    assert b * size == a * size + (b - a) * size;
  }

  lemma DivBounds(x: nat, d: nat)
    requires d > 0
    ensures (x / d) * d <= x < (x / d) * d + d
  {
  }

  lemma OnlyEmptyFilesHaveNoChunks(size: nat, len: nat)
    requires size > 0
    ensures ChunkCount(size, len) > 0 <==> len > 0
  {
    OffAtCount(size, len, 0);
    assert 0 * size == 0;
  }

  /** Whether `k` reads of `size` bytes reach past the end of the file, the last of them being short. */
  predicate PastEnd(size: nat, len: nat, k: nat) {
    k * size > len
  }

  /** A read that starts where `k` chunks end returns chunk `k + 1`, is short exactly when that chunk would
      reach past the end of the file, and is empty exactly past the last chunk. */
  lemma ReadIsChunk(content: seq<byte>, size: nat, k: nat)
    requires size > 0
    ensures var pos := Off(size, |content|, k);
            && Fread(content, size, pos) == Chunk(content, size, k + 1)
            && pos + |Fread(content, size, pos)| == Off(size, |content|, k + 1)
            && (Fread(content, size, pos) == [] <==> k >= ChunkCount(size, |content|))
            && (|Fread(content, size, pos)| < size <==> PastEnd(size, |content|, k + 1))
            && (|Fread(content, size, pos)| < size ==> k + 1 >= ChunkCount(size, |content|))
  {
    OffStep(size, |content|, k);
    OffAtCount(size, |content|, k);
    assert (k + 1) * size == k * size + size;
  }

  /** Reads reach past the end of the file from the last chunk on, or only after it if that chunk is full. */
  lemma PastEndBounds(size: nat, len: nat, k: nat)
    requires size > 0
    ensures PastEnd(size, len, k) ==> k >= ChunkCount(size, len)
    ensures k > ChunkCount(size, len) ==> PastEnd(size, len, k)
  {
    OffAtCount(size, len, k);
    var n := ChunkCount(size, len);
    if k > n {
      DivBounds(len + size - 1, size);
      ProductOrder(size, n + 1, k);
      assert (n + 1) * size == n * size + size;
    }
  }

  lemma PastEndStays(size: nat, len: nat, j: nat, k: nat)
    requires j <= k && PastEnd(size, len, j)
    ensures PastEnd(size, len, k)
  {
    ProductOrder(size, j, k);
  }

  lemma AllChunksAreTheFile(content: seq<byte>, size: nat, k: nat)
    requires size > 0 && k >= ChunkCount(size, |content|)
    ensures content[..Off(size, |content|, k)] == content
  {
    OffAtCount(size, |content|, k);
  }

  lemma NextChunkExtendsPrefix(content: seq<byte>, size: nat, k: nat)
    ensures content[..Off(size, |content|, k)] + Chunk(content, size, k + 1) == content[..Off(size, |content|, k + 1)]
  {
    OffMonotone(size, |content|, k, k + 1);
  }

  /** The chunks 1 to `k` one after another. */
  function ChunksUpTo(content: seq<byte>, size: nat, k: nat): seq<byte> {
    if k == 0 then [] else ChunksUpTo(content, size, k - 1) + Chunk(content, size, k)
  }

  lemma {:induction false} ChunksConcatenate(content: seq<byte>, size: nat, k: nat)
    ensures ChunksUpTo(content, size, k) == content[..Off(size, |content|, k)]
  {
    if k > 0 {
      ChunksConcatenate(content, size, k - 1);
      NextChunkExtendsPrefix(content, size, k - 1);
    }
  }
}
