/** Whether the search of rsync/src.c recognises a block of the other file. */
module RsyncSearch {
  import opened Files
  import opened Rolling
  import ChunkIndex

  /** The chunk dst.c sends for block i of its file: the length it has, the checksum
      of the block padded with zeros, the digest of what it has. */
  ghost predicate Describes(c: ChunkIndex.Chunk, md5: Bytes -> ChunkIndex.Digest, dst: Bytes, i: nat, len: nat)
    requires i * len < |dst|
  {
    ChunkIndex.Has(c, len - Missing(dst, i * len, len), Checksum(SumsOf(Window(dst, i * len, len))), md5(Begin(dst, i * len, len)))
  }

  /** A search that began at off and stands at off + k over bytes equal to a block of
      the other file: the chunk of that block matches exactly if the search began on
      a full block or happens to have no lag. */
  lemma EqualBlockMatches(c: ChunkIndex.Chunk, md5: Bytes -> ChunkIndex.Digest, src: Bytes, off: nat, k: nat, dst: Bytes, i: nat, len: nat)
    requires len > 0 && i * len < |dst| && off + k < |src| && Describes(c, md5, dst, i, len)
    requires Begin(src, off + k, len) == Begin(dst, i * len, len)
    ensures ChunkIndex.Has(c, |Begin(src, off + k, len)|, Checksum(Rolled(src, off, len, k)), md5(Begin(src, off + k, len)))
            <==> Lag(src, off, len) % M == 0
  {
    hide Rolled, SumsOf, Lag;
    WindowIs(src, off + k, len);
    WindowIs(dst, i * len, len);
    EqualBlocksMatch(src, off, k, dst, i, len);
  }

  lemma WindowIs(file: Bytes, off: nat, len: nat)
    requires off < |file|
    ensures Window(file, off, len) == Begin(file, off, len) + Zeros(Missing(file, off, len))
  {
  }

  /** Over any chunks received, a block of the source that equals one of them is
      found if the search began on a full block. */
  lemma FullStartFinds(received: seq<ChunkIndex.Chunk>, c: ChunkIndex.Chunk, md5: Bytes -> ChunkIndex.Digest,
                       src: Bytes, off: nat, k: nat, dst: Bytes, i: nat, len: nat)
    requires len > 0 && i * len < |dst| && off + k < |src| && off + len <= |src|
    requires c in received && Describes(c, md5, dst, i, len) && Begin(src, off + k, len) == Begin(dst, i * len, len)
    ensures exists d <- received ::
      ChunkIndex.Has(d, |Begin(src, off + k, len)|, Checksum(Rolled(src, off, len, k)), md5(Begin(src, off + k, len)))
  {
    hide Rolled, SumsOf;
    EqualBlockMatches(c, md5, src, off, k, dst, i, len);
  }

  /** Both files hold one byte 1: the search begins on it and misses it. */
  lemma ShortBlockMissed(c: ChunkIndex.Chunk, md5: Bytes -> ChunkIndex.Digest)
    requires Describes(c, md5, [1], 0, 32)
    ensures !ChunkIndex.Has(c, 1, Checksum(Rolled([1], 0, 32, 0)), md5([1]))
  {
    ShortBlockDiffers();
  }
}
