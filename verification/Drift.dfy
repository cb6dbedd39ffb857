/**
  The feedback between jitter correction and the block address of the next read:
  the displacement of a read does not depend on how many reads came before it.
 */
module Drift {
  import opened Basics
  import opened Layout
  import opened Jitter
  import opened ReaderSpec

  /** Displacement in bytes of read number k by the drive. */
  type Jit = nat -> int

  ghost predicate Bounded(jit: Jit, bound: nat) {
    forall k :: Abs(jit(k)) <= bound
  }

  ghost predicate WholeSamples(jit: Jit) {
    forall k :: jit(k) % 2 == 0
  }

  /** A drive without jitter. */
  function Still(): Jit { k => 0 }

  /** Bytes in n chunks. */
  function Length(run: Run, n: nat): nat {
    n * run.z.chunkBytes
  }

  /** The byte of the disc where chunk k has to start. */
  function Due(run: Run, jit: Jit, k: nat): int {
    Bytes(run.startLba) + jit(0) + k * run.z.chunkBytes
  }

  /** The block address of read k when every correction finds the true
      alignment: read 0 is not corrected, and cont starts afresh. */
  function LbaAt(run: Run, jit: Jit, k: nat): int {
    if k == 0 then run.startLba
    else if k == run.z.bufferChunks then run.startLba + run.z.bufferBlocks
    else LbaAt(run, jit, k - 1)
         + Advance(run.z.chunkBytes - (Bytes(LbaAt(run, jit, k - 1)) + jit(k - 1) - Due(run, jit, k - 1)))
  }

  /** By how many bytes read k starts after the place where its chunk has to start. */
  function Idx(run: Run, jit: Jit, k: nat): int {
    Bytes(LbaAt(run, jit, k)) + jit(k) - Due(run, jit, k)
  }

  /** To the nearest block, except that C rounds a negative length towards zero. */
  lemma RoundsToNearest(len: int)
    ensures len >= 0 ==> -1176 < Bytes(Advance(len)) - len <= 1176
    ensures len < 0 ==> 0 <= Bytes(Advance(len)) - len < 2352
  {
  }

  /** One turn of the loop: what the last displacement was drops out. */
  lemma {:induction false} TurnForgets(run: Run, jit: Jit, k: nat)
    requires k + 1 != run.z.bufferChunks && Idx(run, jit, k) <= run.z.chunkBytes
    ensures var e := Idx(run, jit, k + 1) - (jit(k + 1) - jit(k));
            -1176 < e <= 1176
  {
    RoundsToNearest(run.z.chunkBytes - Idx(run, jit, k));
    assert Due(run, jit, k + 1) == Due(run, jit, k) + run.z.chunkBytes by {
      assert (k + 1) * run.z.chunkBytes == k * run.z.chunkBytes + run.z.chunkBytes;
    }
  }

  /** At the hand-over from fillbuf to cont only the drive's jitter is left. */
  lemma {:induction false} HandOverForgets(run: Run, jit: Jit)
    requires ValidRun(run)
    ensures Idx(run, jit, run.z.bufferChunks) == jit(run.z.bufferChunks) - jit(0)
  {
    var n := run.z.bufferChunks;
    assert Bytes(n * run.z.chunkBlocks) == n * run.z.chunkBytes by {
      assert 2352 * (n * run.z.chunkBlocks) == n * (2352 * run.z.chunkBlocks);
    }
  }

  /** However many reads have been made, the displacement of the next is at most
      twice the jitter of the drive and half a block. */
  lemma {:induction false} DriftIsBounded(run: Run, jit: Jit, bound: nat, k: nat)
    requires ValidRun(run) && Bounded(jit, bound) && 2 * bound + 1176 <= run.z.chunkBytes
    ensures Abs(Idx(run, jit, k)) <= 2 * bound + 1176
    decreases k
  {
    if k == 0 {
    } else if k == run.z.bufferChunks {
      HandOverForgets(run, jit);
    } else {
      DriftIsBounded(run, jit, bound, k - 1);
      TurnForgets(run, jit, k - 1);
    }
  }

  /** lba never strays from its place by more than that either. */
  lemma {:induction false} LbaStaysNear(run: Run, jit: Jit, bound: nat, k: nat)
    requires ValidRun(run) && Bounded(jit, bound) && 2 * bound + 1176 <= run.z.chunkBytes
    ensures Abs(Bytes(LbaAt(run, jit, k)) - Bytes(run.startLba) - k * run.z.chunkBytes) <= 2 * bound + 1176
  {
    if k == run.z.bufferChunks {
      HandOverForgets(run, jit);
    } else if k > 0 {
      DriftIsBounded(run, jit, bound, k - 1);
      TurnForgets(run, jit, k - 1);
    }
  }

  /** If the drive strays by less than a quarter of a block, lba moves on by whole
      chunks and nothing accumulates at all. */
  lemma {:induction false} SteadyLba(run: Run, jit: Jit, bound: nat, k: nat)
    requires ValidRun(run) && Bounded(jit, bound) && 2 * bound < 1176
    ensures LbaAt(run, jit, k) == run.startLba + k * run.z.chunkBlocks
    ensures Idx(run, jit, k) == jit(k) - jit(0)
    decreases k
  {
    ChunkBlocks(run.z, k);
    if k > 0 && k != run.z.bufferChunks {
      SteadyLba(run, jit, bound, k - 1);
      assert k * run.z.chunkBlocks == (k - 1) * run.z.chunkBlocks + run.z.chunkBlocks;
      SteadyAdvance(run.z.chunkBlocks, jit(k - 1) - jit(0));
    }
  }

  lemma SteadyAdvance(blocks: nat, idx: int)
    requires -1176 < idx < 1176 && blocks >= 1
    ensures Advance(Bytes(blocks) - idx) == blocks
  {
  }

  lemma ChunkBlocks(z: Sizes, k: nat)
    requires z.chunkBytes == Bytes(z.chunkBlocks)
    ensures k * z.chunkBytes == Bytes(k * z.chunkBlocks)
  {
    assert k * (2352 * z.chunkBlocks) == 2352 * (k * z.chunkBlocks);
  }

  lemma {:induction false} ChunksAreEven(z: Sizes, jitter: bool, k: nat)
    requires Consistent(z, jitter)
    ensures k * z.chunkBytes % 2 == 0
    decreases k
  {
    if k > 0 {
      ChunksAreEven(z, jitter, k - 1);
      assert k * z.chunkBytes == (k - 1) * z.chunkBytes + 2352 * z.chunkBlocks;
    }
  }

  lemma {:induction false} DueIsEven(run: Run, jit: Jit, k: nat)
    requires ValidRun(run) && WholeSamples(jit)
    ensures Due(run, jit, k) % 2 == 0
  {
    ChunksAreEven(run.z, run.jitter, k);
  }

  /** Displacements stay whole samples. */
  lemma {:induction false} DisplacementIsEven(run: Run, jit: Jit, k: nat)
    requires ValidRun(run) && WholeSamples(jit)
    ensures Idx(run, jit, k) % 2 == 0
  {
    DueIsEven(run, jit, k);
    EvenDifference(LbaAt(run, jit, k), jit(k), Due(run, jit, k));
  }

  lemma EvenDifference(lba: int, jitter: int, due: int)
    requires jitter % 2 == 0 && due % 2 == 0
    ensures (Bytes(lba) + jitter - due) % 2 == 0
  {
  }

  // ---- progress of lba ----

  /** Whatever a read brings, lba moves forward behind it. */
  ghost predicate AlwaysAdvances(z: Sizes)
    requires Consistent(z, true)
  {
    forall m :: |m| == MemLen(z) ==> Advance(z.chunkBytes - Displacement(m, z)) >= 1
  }

  /** The read starts with a byte that occurs once in the window, at its last even offset. */
  function LateMatch(z: Sizes): (m: seq<Byte>)
    requires Consistent(z, true)
    ensures |m| == MemLen(z)
  {
    seq(MemLen(z), x => if x == 2 * z.searchBytes - 2 || x == ReadAt(z) then 1 else 0)
  }

  lemma {:induction false} LateMatchIsFound(z: Sizes)
    requires Consistent(z, true)
    ensures Displacement(LateMatch(z), z) == z.searchBytes - 2
  {
    var m, last, n := LateMatch(z), 2 * z.searchBytes - 2, z.strLength;
    assert m[last..last + n] == m[ReadAt(z)..ReadAt(z) + n];
    assert Hit(m, z, last);
    forall i | 0 <= i < last ensures !Hit(m, z, i) {
      HitStarts(m, z, i);
    }
  }

  /** With jitter correction on, lba moves forward behind every read, whatever it
      brings, exactly when chunks have at least three blocks. */
  lemma {:induction false} AdvancesIff(z: Sizes)
    requires Consistent(z, true)
    ensures AlwaysAdvances(z) <==> z.chunkBlocks >= 3
  {
    if z.chunkBlocks >= 3 {
      forall m | |m| == MemLen(z)
        ensures Advance(z.chunkBytes - Displacement(m, z)) >= 1
      {
        assert z.chunkBytes - Displacement(m, z) >= 2354;
      }
    } else {
      LateMatchIsFound(z);
      assert Advance(z.chunkBytes - Displacement(LateMatch(z), z)) <= 0;
    }
  }
}
