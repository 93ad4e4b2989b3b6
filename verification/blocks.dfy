/** The arithmetic of `File.read`: which 1 MiB block an offset falls in, where
    in that block it lies, which byte ranges are requested, and how a cached
    block is cut down to the bytes asked for. */
module Blocks {
  import opened Common
  import opened Remote

  const BlockSize: nat := 1048576

  /** `mb_start`: the block an offset falls in, computed as the source does,
      dividing by 1024 twice. */
  function BlockIndex(offset: nat): (block: nat)
    ensures block * BlockSize <= offset < (block + 1) * BlockSize
  {
    (offset / 1024) / 1024
  }

  /** `offset_from_mb`: the offset's distance from the start of its block,
      assembled from the kibibyte within the block and the byte within that. */
  function OffsetInBlock(offset: nat): (inBlock: nat)
    ensures inBlock < BlockSize && inBlock <= offset
  {
    ((offset / 1024) % 1024) * 1024 + offset % 1024
  }

  /** Division and remainder by the block size are determined by any
      quotient and remainder that rebuild the dividend. */
  lemma DivModBlock(x: nat, q: nat, r: nat)
    requires r < BlockSize && x == q * BlockSize + r
    ensures x / BlockSize == q && x % BlockSize == r
  {
  }

  /** The block index and the in-block offset are the quotient and remainder
      of the offset by the block size, and together rebuild the offset. */
  lemma BlockDecomposition(offset: nat)
    ensures BlockIndex(offset) == offset / BlockSize
    ensures OffsetInBlock(offset) == offset % BlockSize
    ensures OffsetInBlock(offset) < BlockSize
    ensures BlockIndex(offset) * BlockSize + OffsetInBlock(offset) == offset
  {
    var q, r := offset / 1024, offset % 1024;
    var m, n := q / 1024, q % 1024;
    assert offset == q * 1024 + r;
    assert q == m * 1024 + n;
    assert offset == m * BlockSize + (n * 1024 + r);
    assert n * 1024 + r < BlockSize;
    DivModBlock(offset, m, n * 1024 + r);
  }

  /** `mb_start == mb_end`: the offset and the offset just past the request
      fall in the same block. */
  predicate WithinOneBlock(offset: nat, length: nat) {
    BlockIndex(offset) == BlockIndex(offset + length)
  }

  /** A request stays within one block exactly when its in-block offset plus
      its length stays short of the block size. */
  lemma WithinOneBlockIff(offset: nat, length: nat)
    ensures WithinOneBlock(offset, length) <==> OffsetInBlock(offset) + length < BlockSize
  {
    BlockDecomposition(offset);
    BlockDecomposition(offset + length);
    var b, o := BlockIndex(offset), OffsetInBlock(offset);
    if o + length < BlockSize {
      DivModBlock(offset + length, b, o + length);
    }
    if WithinOneBlock(offset, length) {
      assert offset + length == b * BlockSize + OffsetInBlock(offset + length);
    }
  }

  /** The range requested to fill block `block`: from its first byte to the
      byte `1023 * 1024` further on, both inclusive. That is 1023 bytes short
      of the whole block, as the source writes it. */
  function BlockFetch(url: string, block: nat): (req: RangeRequest)
    ensures req.url == url
    ensures req.first == block * BlockSize
    ensures req.last - req.first + 1 == BlockSize - 1023
  {
    RangeRequest(url, block * 1024 * 1024, block * 1024 * 1024 + 1023 * 1024)
  }

  /** The range requested for a read that spans blocks: from the offset to the
      smaller of the file size and the last byte asked for. */
  function SpanFetch(url: string, offset: nat, length: nat, size: int): (req: RangeRequest)
    ensures req.url == url && req.first == offset
    ensures req.last <= size && req.last <= offset + length - 1
    ensures req.last == size || req.last == offset + length - 1
  {
    RangeRequest(url, offset, Min(size, offset + length - 1))
  }

  /** `s[lo:hi]` for non-negative bounds: both ends are clamped to the length
      of `s`, and an empty slice results when `hi` does not exceed `lo`. */
  function Slice(s: seq<byte>, lo: nat, hi: nat): (r: seq<byte>)
    ensures forall k :: 0 <= k < |r| ==> lo + k < |s| && r[k] == s[lo + k]
    ensures lo <= hi ==> |r| <= hi - lo
    ensures lo <= hi <= |s| ==> |r| == hi - lo
    ensures lo <= hi && lo <= |s| ==> |r| == Min(hi, |s|) - lo
    ensures hi <= lo ==> r == []
  {
    if |s| <= lo || hi <= lo then [] else s[lo..Min(hi, |s|)]
  }

  /** What a block fetch misses: when the server answers it with no more
      bytes than were asked for, a read within one block that reaches past
      those bytes gets fewer bytes than it asked for. */
  lemma ServedBlockReadIsShort(offset: nat, length: nat, content: seq<byte>)
    requires 0 < length && WithinOneBlock(offset, length)
    requires |content| <= BlockSize - 1023
    requires OffsetInBlock(offset) + length > BlockSize - 1023
    ensures |Slice(content, OffsetInBlock(offset), OffsetInBlock(offset) + length)| < length
  {
  }

  /** Ten bytes at offset 0 stay in block 0, which is requested as bytes 0 to 1047552. */
  lemma FirstBlockFetch(url: string)
    ensures WithinOneBlock(0, 10) && BlockIndex(0) == 0 && OffsetInBlock(0) == 0
    ensures BlockFetch(url, 0) == RangeRequest(url, 0, 1047552)
  {
  }

  /** Twenty bytes at offset 1048570 cross into block 1 and, in a 2 MiB file,
      are requested as exactly bytes 1048570 to 1048589. */
  lemma SpanningFetch(url: string)
    ensures !WithinOneBlock(1048570, 20)
    ensures SpanFetch(url, 1048570, 20, 2 * BlockSize) == RangeRequest(url, 1048570, 1048589)
  {
  }
}
