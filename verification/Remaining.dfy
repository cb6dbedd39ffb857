/** For which drives the last read of a jitter-corrected run is sure to have a frame to read. */
module Remaining {
  import opened Layout
  import opened ReaderSpec
  import opened Drift
  import opened Seamless
  import opened Example
  import Coverage

  /** In every run with these sizes and a drive within the bound, the read that
      reaches the end starts before it. */
  ghost predicate AlwaysRemains(z: Sizes, bound: nat) {
    forall run: Run, disc, jit, k: nat ::
      run.z == z && Setting(run, disc, jit, bound) && Ends(run, jit, k + 1, true) ==> LbaAt(run, jit, k) < run.endLba
  }

  /** The first read comes a quarter of a block late, all others as much early. */
  function Wobble(): Jit {
    k => if k == 0 then 588 else -588
  }

  /** A segment that ends one block behind a chunk. */
  function WobblyRun(z: Sizes): Run {
    Run(z, true, 0, (if z.bufferChunks == 2 then 3 else 2) * z.chunkBlocks + 1, Drive(Numbered(), Wobble()))
  }

  lemma {:induction false} WobblyStep(z: Sizes, k: nat)
    requires Consistent(z, true) && ValidRun(WobblyRun(z)) && 1 <= k <= 2 && k + 1 != z.bufferChunks
    requires LbaAt(WobblyRun(z), Wobble(), k) == k * z.chunkBlocks
    ensures LbaAt(WobblyRun(z), Wobble(), k + 1) == (k + 1) * z.chunkBlocks + 1
  {
    ChunkBlocks(z, k);
    assert Idx(WobblyRun(z), Wobble(), k) == -1176;
  }

  /** It steps right onto the end: nothing is left to read. */
  lemma {:induction false} WobblyEnds(z: Sizes) returns (k: nat)
    requires Consistent(z, true) && ValidRun(WobblyRun(z))
    ensures Ends(WobblyRun(z), Wobble(), k + 1, true)
    ensures LbaAt(WobblyRun(z), Wobble(), k) == WobblyRun(z).endLba
  {
    var run := WobblyRun(z);
    assert LbaAt(run, Wobble(), 1) == z.chunkBlocks;
    k := if z.bufferChunks == 2 then 3 else 2;
    WobblyStep(z, k - 1);
    assert forall i :: 0 <= i < k ==> !ReachesEnd(run, Wobble(), i);
  }

  /** The last read is sure to have a frame to read exactly for drives that stray by
      less than a quarter of a block, whatever the segment and the disc. */
  lemma {:induction false} AlwaysRemainsIff(z: Sizes, bound: nat)
    requires Consistent(z, true) && z.chunkBlocks >= 2
    requires 2 * bound + 1176 <= z.chunkBytes && 2 * bound + 1176 <= z.searchBytes - z.strLength
    ensures AlwaysRemains(z, bound) <==> 2 * bound < 1176
  {
    if 2 * bound < 1176 {
      forall run: Run, disc, jit, k: nat | run.z == z && Setting(run, disc, jit, bound) && Ends(run, jit, k + 1, true)
        ensures LbaAt(run, jit, k) < run.endLba
      {
        Coverage.SteadyEnd(run, jit, bound, k + 1);
      }
    } else {
      var run := WobblyRun(z);
      NumberedDiscMeetsSetting(run, Wobble(), bound);
      var k := WobblyEnds(z);
      assert Setting(run, Numbered(), Wobble(), bound) && Ends(run, Wobble(), k + 1, true);
    }
  }
}
