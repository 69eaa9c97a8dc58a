/**
 * How the sender cuts a file into data-channel messages: `file.slice(offset, offset + chunkSize)`
 * for `offset` = 0, 16384, 32768, ... while `offset < file.size`, the first slice always read.
 */
module Chunking {
  import opened Bytes

  /** `16 * 1024`. */
  const ChunkSize: nat := 16384

  function Min(a: int, b: int): int { if a < b then a else b }

  /** The slices the sender reads, in order: one (possibly empty) slice for a file of at most
      one chunk, otherwise a full chunk followed by the slices of the rest. */
  function Chunks(f: seq<byte>): (r: seq<seq<byte>>)
    ensures |r| >= 1
    decreases |f|
  {
    if |f| <= ChunkSize then [f] else [f[..ChunkSize]] + Chunks(f[ChunkSize..])
  }

  /** Chunk `k` is the slice `[k * 16384, min((k + 1) * 16384, size))` of the file. */
  lemma {:induction false} ChunkAt(f: seq<byte>, k: nat)
    requires k < |Chunks(f)|
    ensures k * ChunkSize <= |f|
    ensures Chunks(f)[k] == f[k * ChunkSize .. Min(k * ChunkSize + ChunkSize, |f|)]
    decreases |f|
  {
    if k > 0 {
      assert |f| > ChunkSize;
      var rest := f[ChunkSize..];
      ChunkAt(rest, k - 1);
      assert (k - 1) * ChunkSize + ChunkSize == k * ChunkSize;
      assert Chunks(f)[k] == Chunks(rest)[k - 1];
      assert rest[(k - 1) * ChunkSize .. Min((k - 1) * ChunkSize + ChunkSize, |rest|)]
          == f[k * ChunkSize .. Min(k * ChunkSize + ChunkSize, |f|)];
    }
  }

  /** The loop runs for chunk `k` exactly when `k` is the first chunk or its offset is still
      inside the file. */
  lemma {:induction false} ChunkCount(f: seq<byte>, k: nat)
    ensures k < |Chunks(f)| <==> k == 0 || k * ChunkSize < |f|
    decreases |f|
  {
    if k > 0 && |f| > ChunkSize {
      ChunkCount(f[ChunkSize..], k - 1);
      assert (k - 1) * ChunkSize + ChunkSize == k * ChunkSize;
    }
  }

  /** The slices put back together are the file. */
  lemma {:induction false} ChunksConcat(f: seq<byte>)
    ensures Concat(Chunks(f)) == f
    decreases |f|
  {
    if |f| <= ChunkSize {
      assert Chunks(f) == [] + [f];
      assert Concat([]) == [];
    } else {
      ChunksConcat(f[ChunkSize..]);
      ConcatPrepend(f[..ChunkSize], Chunks(f[ChunkSize..]));
      assert f[..ChunkSize] + f[ChunkSize..] == f;
    }
  }

  /** Every slice but the last is a full chunk, the last is at most a chunk, and only the slice
      of an empty file is empty. */
  lemma {:induction false} ChunkSizes(f: seq<byte>)
    ensures forall k :: 0 <= k < |Chunks(f)| - 1 ==> |Chunks(f)[k]| == ChunkSize
    ensures |Chunks(f)[|Chunks(f)| - 1]| <= ChunkSize
    ensures f != [] ==> |Chunks(f)[|Chunks(f)| - 1]| > 0
    decreases |f|
  {
    if |f| > ChunkSize {
      var rest := Chunks(f[ChunkSize..]);
      ChunkSizes(f[ChunkSize..]);
      assert Chunks(f) == [f[..ChunkSize]] + rest;
      forall k | 0 <= k < |Chunks(f)| - 1 ensures |Chunks(f)[k]| == ChunkSize {
        if k > 0 {
          assert Chunks(f)[k] == rest[k - 1];
        }
      }
    }
  }

  /** A zero-byte file is read as one empty slice. */
  lemma EmptyFile()
    ensures Chunks([]) == [[]]
  {
  }

  /** A 40960-byte file goes out as three slices of 16384, 16384 and 8192 bytes. */
  lemma FortyKilobytes(f: seq<byte>)
    requires |f| == 40960
    ensures |Chunks(f)| == 3
    ensures |Chunks(f)[0]| == 16384 && |Chunks(f)[1]| == 16384 && |Chunks(f)[2]| == 8192
  {
    var r1 := f[ChunkSize..];
    var r2 := r1[ChunkSize..];
    assert |r2| == 8192;
    assert Chunks(r2) == [r2];
    assert Chunks(r1) == [r1[..ChunkSize]] + [r2];
  }
}
