// Block geometry: how a nar of known size is cut into blocks and hashed.

module Blocks {
  import opened Common

  datatype BlockInfo = BlockInfo(blockCount: nat, blockSize: nat, lastBlockSize: nat, blockHashes: seq<Digest>)

  // The block size is clamped to the file size and the count is cast to u32.
  function FromFileSize(fileSize: nat, blockSize: nat): BlockInfo
    requires blockSize > 0
  {
    var effective := Max(fileSize, 1);
    var bs := Min(blockSize, effective);
    var fullBlocks := effective / bs;
    var remainder := effective % bs;
    BlockInfo(
      (if remainder > 0 then fullBlocks + 1 else fullBlocks) % U32_LIMIT,
      bs,
      if remainder > 0 then remainder else bs,
      [])
  }

  // Rust's slice::chunks.
  function Chunks(data: Bytes, size: nat): (cs: seq<Bytes>)
    requires size > 0
    decreases |data|
  {
    if data == [] then []
    else if |data| <= size then [data]
    else [data[..size]] + Chunks(data[size..], size)
  }

  function HashAll(h: Hasher, cs: seq<Bytes>): (hs: seq<Digest>)
    ensures |hs| == |cs| && forall i :: 0 <= i < |cs| ==> hs[i] == h(cs[i])
  {
    seq(|cs|, i requires 0 <= i < |cs| => h(cs[i]))
  }

  function ComputeBlockHashes(h: Hasher, data: Bytes, size: nat): seq<Digest>
    requires size > 0
  {
    HashAll(h, Chunks(data, size))
  }

  // Block i covers this half-open byte range.
  function ChunkEnd(length: nat, size: nat, i: nat): nat {
    Min((i + 1) * size, length)
  }

  lemma {:induction false} ChunksCount(data: Bytes, size: nat)
    requires size > 0
    ensures |Chunks(data, size)| == CeilDiv(|data|, size)
    decreases |data|
  {
    if |data| > size {
      ChunksCount(data[size..], size);
      CeilDivStep(|data|, size);
    } else if data != [] {
      CeilDivIs(|data|, size, 1);
    } else {
      CeilDivIs(0, size, 0);
    }
  }

  lemma {:induction false} ChunksFlatten(data: Bytes, size: nat)
    requires size > 0
    ensures Flatten(Chunks(data, size)) == data
    decreases |data|
  {
    if |data| > size {
      ChunksFlatten(data[size..], size);
      var cs := Chunks(data, size);
      assert cs[0] == data[..size] && cs[1..] == Chunks(data[size..], size);
    } else if data != [] {
      assert Flatten([data]) == data + Flatten<byte>([]);
    }
  }

  lemma {:induction false} ChunkAt(data: Bytes, size: nat, i: nat)
    requires size > 0 && i < |Chunks(data, size)|
    ensures i * size < |data| && i * size < ChunkEnd(|data|, size, i)
    ensures Chunks(data, size)[i] == data[i * size..ChunkEnd(|data|, size, i)]
    decreases i
  {
    if |data| > size && i > 0 {
      var rest := data[size..];
      assert Chunks(data, size)[i] == Chunks(rest, size)[i - 1];
      ChunkAt(rest, size, i - 1);
      assert i * size == (i - 1) * size + size && (i + 1) * size == i * size + size;
      var lo, hi := (i - 1) * size, ChunkEnd(|rest|, size, i - 1);
      assert rest[lo..hi] == data[size + lo..size + hi];
    }
  }

  // Clamping the block size to the file size never changes the cut.
  lemma ChunksClamp(data: Bytes, size: nat)
    requires size > 0
    ensures Chunks(data, size) == Chunks(data, Min(size, Max(|data|, 1)))
  {
  }

  // What FromFileSize computes before the cast: q full blocks and a remainder.
  lemma GeometryOfSize(length: nat, bs: nat)
    requires 0 < bs <= length
    ensures var q, r := length / bs, length % bs;
            var n := if r > 0 then q + 1 else q;
            && n == CeilDiv(length, bs) > 0
            && (n - 1) * bs + (if r > 0 then r else bs) == length
  {
    var q, r := length / bs, length % bs;
    assert length == q * bs + r;
    var n := if r > 0 then q + 1 else q;
    assert (q + 1) * bs == q * bs + bs;
    CeilDivIs(length, bs, n);
    assert n > 0;
    assert n * bs == (n - 1) * bs + bs;
  }

  // The size of the last chunk is the announced last block size.
  lemma LastChunk(data: Bytes, bs: nat)
    requires 0 < bs <= |data|
    ensures var n := |Chunks(data, bs)|;
            && n == CeilDiv(|data|, bs) > 0
            && |Chunks(data, bs)[n - 1]| == (if |data| % bs > 0 then |data| % bs else bs)
  {
    var n := |Chunks(data, bs)|;
    var last := if |data| % bs > 0 then |data| % bs else bs;
    assert n == CeilDiv(|data|, bs) by {
      ChunksCount(data, bs);
    }
    assert n > 0 && (n - 1) * bs + last == |data| by {
      GeometryOfSize(|data|, bs);
    }
    ChunkAt(data, bs, n - 1);
    EndOfLast(|data|, bs, n - 1, last);
  }

  lemma EndOfLast(length: nat, bs: nat, i: nat, last: nat)
    requires i * bs + last == length && last <= bs
    ensures ChunkEnd(length, bs, i) == length
  {
    assert (i + 1) * bs == i * bs + bs;
  }

  // The advertised geometry describes the chunks exactly when the nar is
  // non-empty and its block count survives the cast to u32.
  lemma GeometryExact(data: Bytes, size: nat)
    requires size > 0
    ensures var info := FromFileSize(|data|, size);
            var n := |Chunks(data, size)|;
            && (info.blockCount == n <==> 0 < n < U32_LIMIT)
            && (0 < n ==> |Chunks(data, size)[n - 1]| == info.lastBlockSize)
            && (0 < n ==> (n - 1) * info.blockSize + info.lastBlockSize == |data|)
  {
    if data == [] {
      assert Chunks(data, size) == [];
    } else {
      var bs := Min(size, |data|);
      ChunksClamp(data, size);
      LastChunk(data, bs);
      GeometryOfSize(|data|, bs);
      SmallMod(CeilDiv(|data|, bs), U32_LIMIT);
    }
  }

  // Past the cast's range the count wraps: 2^32 one-byte blocks announce none.
  lemma CountWraps()
    ensures FromFileSize(U32_LIMIT, 1).blockCount == 0
  {
  }
}
