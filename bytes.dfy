/** Bytes and byte-sequence helpers shared by the transfer engine and the cipher container. */
module Bytes {

  /** One element of a `Uint8Array` / `ArrayBuffer`. */
  type byte = b: int | 0 <= b < 256

  /** The bytes of a `Blob` built from a list of parts: the parts concatenated in order. */
  function Concat(parts: seq<seq<byte>>): (r: seq<byte>)
    ensures |r| == TotalSize(parts)
  {
    if parts == [] then [] else Concat(parts[..|parts| - 1]) + parts[|parts| - 1]
  }

  /** The sum of the lengths of the parts. */
  function TotalSize(parts: seq<seq<byte>>): nat
  {
    if parts == [] then 0 else TotalSize(parts[..|parts| - 1]) + |parts[|parts| - 1]|
  }

  /** Concatenation distributes over appending one more part. */
  lemma ConcatAppend(parts: seq<seq<byte>>, p: seq<byte>)
    ensures Concat(parts + [p]) == Concat(parts) + p
    ensures TotalSize(parts + [p]) == TotalSize(parts) + |p|
  {
    assert (parts + [p])[..|parts|] == parts;
  }

  /** Concatenation distributes over putting one more part in front. */
  lemma {:induction false} ConcatPrepend(p: seq<byte>, parts: seq<seq<byte>>)
    ensures Concat([p] + parts) == p + Concat(parts)
    decreases |parts|
  {
    if parts == [] {
      assert [p] + parts == [] + [p];
      assert ([] + [p])[..0] == [];
    } else {
      var init, last := parts[..|parts| - 1], parts[|parts| - 1];
      assert parts == init + [last];
      assert [p] + parts == ([p] + init) + [last];
      ConcatAppend([p] + init, last);
      ConcatPrepend(p, init);
      ConcatAppend(init, last);
    }
  }
}
