/** Values shared by the whole model: bytes, chunks and optional results. */
module Basics {
  newtype Byte = x: int | 0 <= x < 256

  /** One chunk of audio: what a single slot of the ring holds. */
  type Chunk = seq<Byte>

  datatype Option<+T> = None | Some(value: T)

  const FRAME_PER_SEC := 75

  /** CDDA_BLKSZ: an audio block is 2352 bytes. */
  function Bytes(blocks: int): int {
    2352 * blocks
  }

  function Min(a: int, b: int): int {
    if a <= b then a else b
  }

  function Abs(x: int): int {
    if x < 0 then -x else x
  }

  /** Chunks one after the other. */
  function Concat(chunks: seq<Chunk>): seq<Byte> {
    if chunks == [] then [] else Concat(chunks[..|chunks| - 1]) + chunks[|chunks| - 1]
  }

  lemma {:induction false} ConcatUpTo(chunks: seq<Chunk>, k: nat)
    requires k <= |chunks|
    ensures Concat(chunks[..k]) <= Concat(chunks)
    ensures k > 0 ==> Concat(chunks[..k]) == Concat(chunks[..k - 1]) + chunks[k - 1]
    decreases |chunks|
  {
    if k > 0 {
      assert chunks[..k][..k - 1] == chunks[..k - 1];
    }
    if k == |chunks| {
      assert chunks[..k] == chunks;
    } else {
      var l := |chunks| - 1;
      assert chunks[..l][..k] == chunks[..k];
      ConcatUpTo(chunks[..l], k);
    }
  }
}
